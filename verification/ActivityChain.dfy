/** The hash chain of the activity log and its verifier (internal/activitylog/verify.go).

    A log file is the sequence of lines the scanner yields.  JSON and SHA-256 are parameters: a
    `Codec` whose laws are that decoding inverts encoding, that an encoded entry is a non-empty line
    and that a hash is a non-empty string.  Injectivity of the hash is asked for only where it is
    needed, and the main result is first proved without it.
 */
module ActivityChain {
  import opened Common

  type Line = string

  /** The fields of an Entry that the log itself reads; `rest` stands for the others. */
  datatype Entry = Entry(timestamp: int, operation: string, error: string, traceId: string, rest: string,
                         prevHash: string)

  datatype Codec = Codec(encode: Entry -> Option<Line>, decode: Line -> Option<Entry>, hash: Line -> string)

  ghost predicate Lawful(c: Codec) {
    && (forall e :: c.encode(e).Some? ==> c.encode(e).value != "" && c.decode(c.encode(e).value) == Some(e))
    && (forall l :: c.hash(l) != "")
  }

  ghost predicate Injective(c: Codec) {
    forall l, m :: SameHash(c, l, m) ==> l == m
  }

  predicate SameHash(c: Codec, l: Line, m: Line) {
    c.hash(l) == c.hash(m)
  }

  datatype File = Unreadable | File(lines: seq<Line>)

  datatype ChainError = NoError | OpenFailed | InvalidJson | Broken(expected: string, got: string)

  datatype Verdict = Verdict(line: int, hash: string, error: ChainError)

  /** What a scan of `lines` concludes when it starts with `prev` after `start` lines. */
  function Verify(c: Codec, lines: seq<Line>, prev: string, start: int): Verdict {
    if lines == [] then Verdict(start, prev, NoError)
    else
      var before := Verify(c, lines[..|lines| - 1], prev, start);
      if before.error != NoError then before
      else VerifyLine(c, lines[|lines| - 1], before)
  }

  function VerifyLine(c: Codec, line: Line, before: Verdict): Verdict {
    if line == "" then before.(line := before.line + 1)
    else match c.decode(line)
      case None => Verdict(before.line + 1, "", InvalidJson)
      case Some(e) =>
        if e.prevHash != before.hash then Verdict(before.line + 1, "", Broken(before.hash, e.prevHash))
        else Verdict(before.line + 1, c.hash(line), NoError)
  }

  lemma VerifySnoc(c: Codec, lines: seq<Line>, line: Line, prev: string, start: int)
    requires Verify(c, lines, prev, start).error == NoError
    ensures Verify(c, lines + [line], prev, start) == VerifyLine(c, line, Verify(c, lines, prev, start))
  {
    assert (lines + [line])[..|lines|] == lines;
  }

  /** A scan of a concatenation is a scan of the first part, continued in the second if it was clean. */
  lemma {:induction false} VerifyConcat(c: Codec, a: seq<Line>, b: seq<Line>, prev: string, start: int)
    ensures var first := Verify(c, a, prev, start);
      Verify(c, a + b, prev, start) == if first.error != NoError then first else Verify(c, b, first.hash, first.line)
  {
    if b == [] {
      assert a + b == a;
    } else {
      var init, last := b[..|b| - 1], b[|b| - 1];
      VerifyConcat(c, a, init, prev, start);
      assert (a + b)[..|a + b| - 1] == a + init;
      assert (a + b)[|a + b| - 1] == last;
    }
  }

  method VerifyFile(c: Codec, file: File, prevHash: string, startLine: int)
    returns (lineNum: int, lastHash: string, error: ChainError)
    ensures file.Unreadable? ==> Verdict(lineNum, lastHash, error) == Verdict(startLine, prevHash, OpenFailed)
    ensures file.File? ==> Verdict(lineNum, lastHash, error) == Verify(c, file.lines, prevHash, startLine)
  {
    if file.Unreadable? {
      return startLine, prevHash, OpenFailed;
    }
    lineNum, lastHash, error := startLine, prevHash, NoError;
    for i := 0 to |file.lines|
      invariant Verdict(lineNum, lastHash, NoError) == Verify(c, file.lines[..i], prevHash, startLine)
      invariant error == NoError
    {
      var line := file.lines[i];
      VerifySnoc(c, file.lines[..i], line, prevHash, startLine);
      assert file.lines[..i] + [line] == file.lines[..i + 1];
      assert file.lines == file.lines[..i + 1] + file.lines[i + 1..];
      VerifyConcat(c, file.lines[..i + 1], file.lines[i + 1..], prevHash, startLine);
      lineNum := lineNum + 1;
      if line != "" {
        match c.decode(line) {
          case None => return lineNum, "", InvalidJson;
          case Some(e) =>
            if e.prevHash != lastHash {
              return lineNum, "", Broken(lastHash, e.prevHash);
            }
            lastHash := c.hash(line);
        }
      }
    }
    assert file.lines[..|file.lines|] == file.lines;
  }

  // ---------------------------------------------------------------- what a clean scan means

  function NonEmpty(lines: seq<Line>): (r: seq<Line>)
    ensures "" !in r
  {
    if lines == [] then []
    else NonEmpty(lines[..|lines| - 1]) + if lines[|lines| - 1] == "" then [] else [lines[|lines| - 1]]
  }

  lemma NonEmptySnoc(lines: seq<Line>, line: Line)
    ensures NonEmpty(lines + [line]) == if line == "" then NonEmpty(lines) else NonEmpty(lines) + [line]
  {
    assert (lines + [line])[..|lines|] == lines;
  }

  /** The `i`-th entry names the hash of the entry before it; the first names `prev`. */
  ghost predicate Linked(c: Codec, entries: seq<Line>, i: nat, prev: string)
    requires i < |entries|
  {
    && c.decode(entries[i]).Some?
    && c.decode(entries[i]).value.prevHash == if i == 0 then prev else c.hash(entries[i - 1])
  }

  ghost predicate Chained(c: Codec, entries: seq<Line>, prev: string) {
    forall i :: 0 <= i < |entries| ==> Linked(c, entries, i, prev)
  }

  function EndHash(c: Codec, entries: seq<Line>, prev: string): string {
    if entries == [] then prev else c.hash(entries[|entries| - 1])
  }

  lemma ChainedSnoc(c: Codec, entries: seq<Line>, line: Line, prev: string)
    ensures Chained(c, entries + [line], prev) <==>
      Chained(c, entries, prev) && c.decode(line).Some? && c.decode(line).value.prevHash == EndHash(c, entries, prev)
  {
    var all := entries + [line];
    assert all[..|entries|] == entries;
    forall i | 0 <= i < |entries| ensures Linked(c, all, i, prev) <==> Linked(c, entries, i, prev) {
      assert all[..i] == entries[..i];
    }
    if Chained(c, all, prev) {
      assert Linked(c, all, |entries|, prev);
    }
  }

  function LastHash(c: Codec, lines: seq<Line>, prev: string): string {
    EndHash(c, NonEmpty(lines), prev)
  }

  /** The scan is clean exactly when the non-empty lines are chained; it then ends with the last hash. */
  lemma {:induction false} CleanExactlyWhenChained(c: Codec, lines: seq<Line>, prev: string, start: int)
    ensures Verify(c, lines, prev, start).error == NoError <==> Chained(c, NonEmpty(lines), prev)
    ensures Verify(c, lines, prev, start).error == NoError ==>
              Verify(c, lines, prev, start) == Verdict(start + |lines|, LastHash(c, lines, prev), NoError)
  {
    if lines != [] {
      var init, last := lines[..|lines| - 1], lines[|lines| - 1];
      CleanExactlyWhenChained(c, init, prev, start);
      if last == "" {
        assert NonEmpty(lines) == NonEmpty(init);
      } else {
        ChainedSnoc(c, NonEmpty(init), last, prev);
      }
    }
  }

  /** The reported line is the first one at which the scan cannot go on. */
  lemma {:induction false} ErrorLineIsFirstBreak(c: Codec, lines: seq<Line>, prev: string, start: int, k: int)
    requires Verify(c, lines, prev, start).error != NoError
    requires k == Verify(c, lines, prev, start).line - start - 1
    ensures 0 <= k < |lines|
    ensures Verify(c, lines[..k], prev, start).error == NoError
    ensures Verify(c, lines[..k + 1], prev, start) == Verify(c, lines, prev, start)
  {
    var init := lines[..|lines| - 1];
    if Verify(c, init, prev, start).error == NoError {
      CleanExactlyWhenChained(c, init, prev, start);
      assert lines[..|lines|] == lines;
    } else {
      ErrorLineIsFirstBreak(c, init, prev, start, k);
      assert init[..k] == lines[..k] && init[..k + 1] == lines[..k + 1];
    }
  }

  // ---------------------------------------------------------------- tamper evidence

  ghost predicate Collision(c: Codec, a: seq<Line>, b: seq<Line>) {
    exists l, m :: l in a && m in b && l != m && SameHash(c, l, m)
  }

  /** Two chains with the same last entry are the same chain, or they exhibit a hash collision. */
  lemma {:induction false} SameLastEntrySameChain(c: Codec, a: seq<Line>, b: seq<Line>)
    requires forall l :: c.hash(l) != ""
    requires Chained(c, a, "") && Chained(c, b, "")
    requires a != [] && b != [] && a[|a| - 1] == b[|b| - 1]
    ensures a == b || Collision(c, a, b)
  {
    var m, n := |a| - 1, |b| - 1;
    var a', b', last := a[..m], b[..n], a[m];
    assert a == a' + [last] && b == b' + [last];
    ChainedSnoc(c, a', last, "");
    ChainedSnoc(c, b', last, "");
    if a' != [] && b' != [] {
      if a'[m - 1] == b'[n - 1] {
        SameLastEntrySameChain(c, a', b');
        if a' != b' {
          var l, k :| l in a' && k in b' && l != k && SameHash(c, l, k);
          assert l in a && k in b;
        }
      } else {
        assert a[m - 1] in a && b[n - 1] in b && SameHash(c, a[m - 1], b[n - 1]);
      }
    }
  }

  lemma OneChainPerLastEntry(c: Codec, a: seq<Line>, b: seq<Line>)
    requires (forall l :: c.hash(l) != "") && Injective(c) && Chained(c, a, "") && Chained(c, b, "")
    requires a != [] && b != [] && a[|a| - 1] == b[|b| - 1]
    ensures a == b
  {
    SameLastEntrySameChain(c, a, b);
    assert !Collision(c, a, b);
  }

  lemma OnlyOneChain(c: Codec, a: seq<Line>, b: seq<Line>)
    requires (forall l :: c.hash(l) != "") && Injective(c) && Chained(c, a, "")
    requires LastOf(b) == LastOf(a) != ""
    ensures Chained(c, b, "") <==> a == b
  {
    if Chained(c, b, "") {
      OneChainPerLastEntry(c, a, b);
    }
  }

  function LastOf(entries: seq<Line>): Line {
    if entries == [] then "" else entries[|entries| - 1]
  }

  /** One more line, seen from the last entry. */
  lemma LastOfSnoc(lines: seq<Line>, line: Line)
    ensures LastOf(NonEmpty(lines + [line])) == if line == "" then LastOf(NonEmpty(lines)) else line
  {
    NonEmptySnoc(lines, line);
  }

  method LastHashFromFile(c: Codec, file: File) returns (hash: string)
    ensures hash == if file.Unreadable? then "" else LastHash(c, file.lines, "")
  {
    if file.Unreadable? {
      return "";
    }
    var lines := file.lines;
    var lastLine := "";
    for i := 0 to |lines|
      invariant lastLine == LastOf(NonEmpty(lines[..i]))
    {
      LastOfSnoc(lines[..i], lines[i]);
      Border(lines, i);
      if lines[i] != "" {
        lastLine := lines[i];
      }
    }
    assert lines[..|lines|] == lines;
    hash := if lastLine == "" then "" else c.hash(lastLine);
  }

  // ---------------------------------------------------------------- the directory

  datatype ChainResult = ChainResult(valid: bool, entriesRead: int, errorLine: int, error: ChainError)

  function Report(v: Verdict): ChainResult {
    if v.error == NoError then ChainResult(true, v.line, 0, NoError) else ChainResult(false, v.line, v.line, v.error)
  }

  function Concat(files: seq<seq<Line>>): seq<Line> {
    if files == [] then [] else Concat(files[..|files| - 1]) + files[|files| - 1]
  }

  lemma ConcatSnoc(files: seq<seq<Line>>, f: seq<Line>)
    ensures Concat(files + [f]) == Concat(files) + f
  {
    assert (files + [f])[..|files|] == files;
  }

  lemma {:induction false} ConcatAppend(a: seq<seq<Line>>, b: seq<seq<Line>>)
    ensures Concat(a + b) == Concat(a) + Concat(b)
  {
    if b == [] {
      assert a + b == a;
    } else {
      var init, last := b[..|b| - 1], b[|b| - 1];
      ConcatAppend(a, init);
      assert a + b == (a + init) + [last];
      ConcatSnoc(a + init, last);
    }
  }

  /** The contents of the files up to the first one that cannot be opened. */
  function Readable(files: seq<File>): (r: seq<seq<Line>>)
    ensures |r| <= |files|
    ensures forall i :: 0 <= i < |r| ==> files[i] == File(r[i])
    ensures |r| < |files| ==> files[|r|].Unreadable?
  {
    if files == [] || files[0].Unreadable? then [] else [files[0].lines] + Readable(files[1..])
  }

  /** A scan of all files goes on with file `i` where the scan of those before it ended; an error in it is
      the error of the whole scan. */
  lemma OneMoreFile(c: Codec, lines: seq<seq<Line>>, i: nat, before: Verdict)
    requires i < |lines| && before.error == NoError && Verify(c, Concat(lines[..i]), "", 0) == before
    ensures Verify(c, Concat(lines[..i + 1]), "", 0) == Verify(c, lines[i], before.hash, before.line)
    ensures Verify(c, lines[i], before.hash, before.line).error != NoError ==>
              Verify(c, Concat(lines), "", 0) == Verify(c, lines[i], before.hash, before.line)
  {
    ConcatSnoc(lines[..i], lines[i]);
    assert lines[..i] + [lines[i]] == lines[..i + 1];
    VerifyConcat(c, Concat(lines[..i]), lines[i], "", 0);
    assert lines == lines[..i + 1] + lines[i + 1..];
    ConcatAppend(lines[..i + 1], lines[i + 1..]);
    VerifyConcat(c, Concat(lines[..i + 1]), Concat(lines[i + 1..]), "", 0);
  }

  /** What the check of some files returns. */
  function Checked(c: Codec, files: seq<File>): ChainResult {
    var scan := Verify(c, Concat(Readable(files)), "", 0);
    if scan.error != NoError || |Readable(files)| == |files| then Report(scan)
    else ChainResult(false, scan.line, scan.line, OpenFailed)
  }

  ghost predicate AllReadable(files: seq<File>) {
    forall i :: 0 <= i < |files| ==> files[i].File?
  }

  /** The first `k` lines are those of a chain. */
  ghost predicate ChainedUpTo(c: Codec, lines: seq<Line>, k: nat)
    requires k <= |lines|
  {
    Chained(c, NonEmpty(lines[..k]), "")
  }

  /** The chain of the lines goes on before line `k`, counted from 1, and not in it; `error` tells why. */
  ghost predicate BreaksAt(c: Codec, lines: seq<Line>, k: int, error: ChainError) {
    && 1 <= k <= |lines| && ChainedUpTo(c, lines, k - 1) && !ChainedUpTo(c, lines, k)
    && match c.decode(lines[k - 1])
       case None => error == InvalidJson
       case Some(e) => error == Broken(LastHash(c, lines[..k - 1], ""), e.prevHash)
  }

  /** The whole verdict: valid exactly if all files can be read and all their non-empty lines are one chain from
      the empty hash on; all lines are counted then. Otherwise the lines up to the reported one are counted: the
      first that breaks the chain or, if none does, the last before a file that cannot be read. */
  ghost predicate Correct(c: Codec, files: seq<File>, result: ChainResult) {
    var lines := Concat(Readable(files));
    && (result.valid <==> AllReadable(files) && Chained(c, NonEmpty(lines), ""))
    && result.errorLine == (if result.valid then 0 else result.entriesRead)
    && if Chained(c, NonEmpty(lines), "") then
         result.entriesRead == |lines| && result.error == if result.valid then NoError else OpenFailed
       else BreaksAt(c, lines, result.errorLine, result.error)
  }

  lemma ReadableIsAll(files: seq<File>)
    ensures |Readable(files)| == |files| <==> AllReadable(files)
  {
  }

  lemma BreakIsReported(c: Codec, lines: seq<Line>)
    requires Verify(c, lines, "", 0).error != NoError
    ensures BreaksAt(c, lines, Verify(c, lines, "", 0).line, Verify(c, lines, "", 0).error)
  {
    var v := Verify(c, lines, "", 0);
    var k := v.line - 1;
    ErrorLineIsFirstBreak(c, lines, "", 0, k);
    CleanExactlyWhenChained(c, lines[..k], "", 0);
    CleanExactlyWhenChained(c, lines[..k + 1], "", 0);
    Border(lines, k);
    VerifySnoc(c, lines[..k], lines[k], "", 0);
  }

  lemma CheckedIsCorrect(c: Codec, files: seq<File>)
    ensures Correct(c, files, Checked(c, files))
  {
    var lines := Concat(Readable(files));
    ReadableIsAll(files);
    CleanExactlyWhenChained(c, lines, "", 0);
    if Verify(c, lines, "", 0).error != NoError {
      BreakIsReported(c, lines);
    }
  }

  /** VerifyChain and VerifyChainDir: the hash is carried from file to file, the first error stops. */
  method VerifyChain(c: Codec, files: seq<File>) returns (result: ChainResult)
    ensures result == Checked(c, files) && Correct(c, files, result)
  {
    var prevHash, globalLine := "", 0;
    ghost var lines := Readable(files);
    CheckedIsCorrect(c, files);
    for i := 0 to |files|
      invariant i <= |lines|
      invariant Verify(c, Concat(lines[..i]), "", 0) == Verdict(globalLine, prevHash, NoError)
    {
      var lineNum, hash, error := VerifyFile(c, files[i], prevHash, globalLine);
      if i < |lines| {
        OneMoreFile(c, lines, i, Verdict(globalLine, prevHash, NoError));
      } else {
        assert lines[..i] == lines;
      }
      globalLine := lineNum;
      if error != NoError {
        return ChainResult(false, globalLine, lineNum, error);
      }
      prevHash := hash;
    }
    assert lines[..|files|] == lines;
    result := ChainResult(true, globalLine, 0, NoError);
  }

  /** Files that can all be read. */
  function Files(contents: seq<seq<Line>>): (r: seq<File>)
    ensures |r| == |contents|
    ensures forall i :: 0 <= i < |r| ==> r[i] == File(contents[i])
  {
    seq(|contents|, i requires 0 <= i < |contents| => File(contents[i]))
  }

  lemma FilesAreReadable(contents: seq<seq<Line>>)
    ensures Readable(Files(contents)) == contents
  {
    var r := Readable(Files(contents));
    assert |r| == |contents|;
    forall i | 0 <= i < |r| ensures r[i] == contents[i] {
      assert Files(contents)[i] == File(r[i]);
    }
  }

  /** Readable files are valid exactly when their lines, one file after the other, are a chain. */
  lemma ValidExactlyWhenChained(c: Codec, contents: seq<seq<Line>>)
    ensures Checked(c, Files(contents)).valid <==> Chained(c, NonEmpty(Concat(contents)), "")
  {
    FilesAreReadable(contents);
    CheckedIsCorrect(c, Files(contents));
  }

  lemma OneFile(lines: seq<Line>)
    ensures Concat([lines]) == lines
  {
    assert [lines][..0] == [];
  }

  // ---------------------------------------------------------------- tampering

  /** With a collision-free hash, a log that differs from a valid one anywhere in its non-empty lines but keeps
      its last one is found invalid: no edit, insertion, deletion or reordering survives, however both logs are
      spread over files. */
  lemma TamperingIsDetected(c: Codec, original: seq<seq<Line>>, tampered: seq<seq<Line>>)
    requires (forall l :: c.hash(l) != "") && Injective(c) && Checked(c, Files(original)).valid
    requires LastOf(NonEmpty(Concat(tampered))) == LastOf(NonEmpty(Concat(original))) != ""
    ensures Checked(c, Files(tampered)).valid <==> NonEmpty(Concat(original)) == NonEmpty(Concat(tampered))
  {
    ValidExactlyWhenChained(c, original);
    ValidExactlyWhenChained(c, tampered);
    OnlyOneChain(c, NonEmpty(Concat(original)), NonEmpty(Concat(tampered)));
  }

  // ---------------------------------------------------------------- one chain per file

  ghost predicate HasEntry(lines: seq<Line>) {
    NonEmpty(lines) != []
  }

  ghost predicate AllEmpty(files: seq<seq<Line>>) {
    forall i :: 0 <= i < |files| ==> !HasEntry(files[i])
  }

  ghost predicate AtMostOneNonEmpty(files: seq<seq<Line>>) {
    forall i, j :: 0 <= i < j < |files| ==> !HasEntry(files[i]) || !HasEntry(files[j])
  }

  lemma AtMostOneSnoc(files: seq<seq<Line>>, last: seq<Line>)
    ensures AtMostOneNonEmpty(files + [last]) <==> AtMostOneNonEmpty(files) && (AllEmpty(files) || !HasEntry(last))
    ensures AllEmpty(files + [last]) <==> AllEmpty(files) && !HasEntry(last)
  {
    var all := files + [last];
    assert forall i :: 0 <= i < |files| ==> all[i] == files[i];
    assert all[|files|] == last;
    if AtMostOneNonEmpty(all) {
      forall i, j | 0 <= i < j < |files| ensures !HasEntry(files[i]) || !HasEntry(files[j]) {
        assert !HasEntry(all[i]) || !HasEntry(all[j]);
      }
      forall i | 0 <= i < |files| ensures !HasEntry(files[i]) || !HasEntry(last) {
        assert !HasEntry(all[i]) || !HasEntry(all[|files|]);
      }
    }
    if AllEmpty(all) {
      forall i | 0 <= i < |files| ensures !HasEntry(files[i]) {
        assert !HasEntry(all[i]);
      }
      assert !HasEntry(all[|files|]);
    }
  }

  lemma NonEmptyOneMore(a: seq<Line>, b: seq<Line>, line: Line)
    requires NonEmpty(a + b) == NonEmpty(a) + NonEmpty(b)
    ensures NonEmpty((a + b) + [line]) == NonEmpty(a) + NonEmpty(b + [line])
  {
    NonEmptySnoc(a + b, line);
    NonEmptySnoc(b, line);
    Regroup(NonEmpty(a), NonEmpty(b), [line]);
  }

  lemma {:induction false} NonEmptyAppend(a: seq<Line>, b: seq<Line>)
    ensures NonEmpty(a + b) == NonEmpty(a) + NonEmpty(b)
  {
    if b == [] {
      assert a + b == a;
    } else {
      var init, last := b[..|b| - 1], b[|b| - 1];
      NonEmptyAppend(a, init);
      NonEmptyOneMore(a, init, last);
      LastOne(b);
      Regroup(a, init, [last]);
    }
  }

  /** A chain of its own goes on another one only if one of the two is empty. */
  lemma SeparateChainsDoNotJoin(c: Codec, a: seq<Line>, b: seq<Line>)
    requires forall l :: c.hash(l) != ""
    requires Chained(c, b, "")
    ensures Chained(c, a + b, "") <==> Chained(c, a, "") && (a == [] || b == [])
  {
    var n := |a|;
    if a != [] && b != [] {
      assert Linked(c, b, 0, "");
      assert !Linked(c, a + b, n, "");
    } else if Chained(c, a + b, "") {
      forall i | 0 <= i < n ensures Linked(c, a, i, "") {
        assert Linked(c, a + b, i, "");
      }
    } else {
      assert a == [] ==> a + b == b;
      assert b == [] ==> a + b == a;
    }
  }

  /** Files that are each valid on their own, as the writer leaves them, pass the check together exactly when at
      most one of them has an entry. */
  lemma {:induction false} DirectoryPassesExactlyWhenOneFile(c: Codec, files: seq<seq<Line>>)
    requires forall l :: c.hash(l) != ""
    requires EachIsValid(c, files)
    ensures Checked(c, Files(files)).valid <==> AtMostOneNonEmpty(files)
  {
    ValidExactlyWhenChained(c, files);
    EachIsChained(c, files);
    SeparateChains(c, files);
  }

  ghost predicate EachIsValid(c: Codec, files: seq<seq<Line>>) {
    forall i :: 0 <= i < |files| ==> IsValid(c, files[i])
  }

  predicate IsValid(c: Codec, lines: seq<Line>) {
    Checked(c, Files([lines])).valid
  }

  ghost predicate EachChained(c: Codec, files: seq<seq<Line>>) {
    forall i :: 0 <= i < |files| ==> Chained(c, NonEmpty(files[i]), "")
  }

  lemma EachIsChained(c: Codec, files: seq<seq<Line>>)
    ensures EachIsValid(c, files) <==> EachChained(c, files)
  {
    forall i | 0 <= i < |files| ensures IsValid(c, files[i]) <==> Chained(c, NonEmpty(files[i]), "") {
      ValidExactlyWhenChained(c, [files[i]]);
      OneFile(files[i]);
    }
  }

  lemma {:induction false} SeparateChains(c: Codec, files: seq<seq<Line>>)
    requires forall l :: c.hash(l) != ""
    requires EachChained(c, files)
    ensures Chained(c, NonEmpty(Concat(files)), "") <==> AtMostOneNonEmpty(files)
    ensures NonEmpty(Concat(files)) == [] <==> AllEmpty(files)
  {
    if files != [] {
      var init, last := files[..|files| - 1], files[|files| - 1];
      SeparateChains(c, init);
      assert files == init + [last];
      OneMoreSeparateFile(c, init, last);
    }
  }

  lemma OneMoreSeparateFile(c: Codec, init: seq<seq<Line>>, last: seq<Line>)
    requires forall l :: c.hash(l) != ""
    requires Chained(c, NonEmpty(Concat(init)), "") <==> AtMostOneNonEmpty(init)
    requires NonEmpty(Concat(init)) == [] <==> AllEmpty(init)
    requires Chained(c, NonEmpty(last), "")
    ensures Chained(c, NonEmpty(Concat(init + [last])), "") <==> AtMostOneNonEmpty(init + [last])
    ensures NonEmpty(Concat(init + [last])) == [] <==> AllEmpty(init + [last])
  {
    AtMostOneSnoc(init, last);
    ConcatSnoc(init, last);
    NonEmptyAppend(Concat(init), last);
    SeparateChainsDoNotJoin(c, NonEmpty(Concat(init)), NonEmpty(last));
  }

  /** The laws asked of a codec do not contradict each other, nor the entries they are used for. */
  lemma LawsAreSatisfiable(t: int, u: int) returns (c: Codec)
    requires t != u
    ensures Lawful(c) && Injective(c)
    ensures forall p :: c.encode(Entry(t, "", "", "", "", p)).Some? && c.encode(Entry(u, "", "", "", "", p)).Some?
  {
    var encode := (e: Entry) => if e == Entry(t, "", "", "", "", e.prevHash) then Some("t" + e.prevHash)
                                else if e == Entry(u, "", "", "", "", e.prevHash) then Some("u" + e.prevHash)
                                else None;
    var decode := (l: Line) => if l == "" then None
                               else Some(Entry(if l[0] == 't' then t else u, "", "", "", "", l[1..]));
    var hash := (l: Line) => "h" + l;
    c := Codec(encode, decode, hash);
    forall l, m | SameHash(c, l, m) ensures l == m {
      assert ("h" + l)[1..] == l && ("h" + m)[1..] == m;
    }
    forall e | c.encode(e).Some? ensures c.decode(c.encode(e).value) == Some(e) {
      assert ("t" + e.prevHash)[1..] == e.prevHash && ("u" + e.prevHash)[1..] == e.prevHash;
    }
  }
}
