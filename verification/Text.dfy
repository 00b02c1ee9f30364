/** The string operations of Go's `strings` and `bufio` packages that the models use.  A string is a
    sequence of characters; the separators and white space involved are the same as in Go. */
module Text {
  /** unicode.IsSpace */
  predicate IsSpace(c: char) {
    || c in "\t\n\U{0B}\U{0C}\r \U{85}\U{A0}\U{1680}\U{2028}\U{2029}\U{202F}\U{205F}\U{3000}"
    || '\U{2000}' <= c <= '\U{200A}'
  }

  /** White space by its code points. */
  lemma SpacesByCode(c: char)
    ensures var n := c as int;
            IsSpace(c) <==>
              9 <= n <= 13 || n == 32 || n == 133 || n == 160 || n == 5760 || 8192 <= n <= 8202
              || n == 8232 || n == 8233 || n == 8239 || n == 8287 || n == 12288
  {
    var spaces := "\t\n\U{0B}\U{0C}\r \U{85}\U{A0}\U{1680}\U{2028}\U{2029}\U{202F}\U{205F}\U{3000}";
    assert |spaces| == 14;
    assert spaces[0] as int == 9 && spaces[1] as int == 10 && spaces[2] as int == 11 && spaces[3] as int == 12;
    assert spaces[4] as int == 13 && spaces[5] as int == 32 && spaces[6] as int == 133 && spaces[7] as int == 160;
    assert spaces[8] as int == 5760 && spaces[9] as int == 8232 && spaces[10] as int == 8233;
    assert spaces[11] as int == 8239 && spaces[12] as int == 8287 && spaces[13] as int == 12288;
  }

  function TrimLeft(s: string): string {
    if s != "" && IsSpace(s[0]) then TrimLeft(s[1..]) else s
  }

  function TrimRight(s: string): string {
    if s != "" && IsSpace(s[|s| - 1]) then TrimRight(s[..|s| - 1]) else s
  }

  /** strings.TrimSpace */
  function TrimSpace(s: string): string {
    TrimRight(TrimLeft(s))
  }

  predicate Trimmed(s: string) {
    s == "" || (!IsSpace(s[0]) && !IsSpace(s[|s| - 1]))
  }

  lemma {:induction false} TrimLeftStarts(s: string)
    ensures TrimLeft(s) == "" || !IsSpace(TrimLeft(s)[0])
    ensures forall c :: c in TrimLeft(s) ==> c in s
    ensures |TrimLeft(s)| <= |s|
  {
    if s != "" && IsSpace(s[0]) {
      TrimLeftStarts(s[1..]);
    }
  }

  lemma {:induction false} TrimRightEnds(s: string)
    ensures TrimRight(s) == "" || !IsSpace(TrimRight(s)[|TrimRight(s)| - 1])
    ensures TrimRight(s) <= s
  {
    if s != "" && IsSpace(s[|s| - 1]) {
      TrimRightEnds(s[..|s| - 1]);
    }
  }

  lemma TrimSpaceTrims(s: string)
    ensures Trimmed(TrimSpace(s))
    ensures forall c :: c in TrimSpace(s) ==> c in s
    ensures |TrimSpace(s)| <= |s|
  {
    TrimLeftStarts(s);
    TrimRightEnds(TrimLeft(s));
  }

  lemma TrimmedIsFixed(s: string)
    requires Trimmed(s)
    ensures TrimSpace(s) == s
  {
  }

  /** White space at the end of a string makes no difference. */
  lemma {:induction false} TrimSpaceSnoc(s: string, c: char)
    requires IsSpace(c)
    ensures TrimSpace(s + [c]) == TrimSpace(s)
  {
    if s == "" {
      assert TrimLeft([c]) == TrimLeft([c][1..]);
    } else if IsSpace(s[0]) {
      TrimSpaceSnoc(s[1..], c);
      assert (s + [c])[1..] == s[1..] + [c];
    } else {
      assert (s + [c])[..|s|] == s;
    }
  }

  /** strings.Index for a one-character needle; -1 when it does not occur. */
  function IndexOf(s: string, c: char): (i: int)
    ensures -1 <= i < |s|
    ensures i >= 0 ==> s[i] == c && c !in s[..i]
    ensures i < 0 ==> c !in s
  {
    if s == "" then -1
    else if s[0] == c then 0
    else
      var i := IndexOf(s[1..], c);
      if i < 0 then -1 else i + 1
  }

  lemma {:induction false} IndexOfFirst(a: string, c: char, b: string)
    requires c !in a
    ensures IndexOf(a + [c] + b, c) == |a|
  {
    if a != "" {
      assert (a + [c] + b)[1..] == a[1..] + [c] + b;
      IndexOfFirst(a[1..], c, b);
    }
  }

  predicate HasPrefix(s: string, p: string) {
    p <= s
  }

  function TrimPrefix(s: string, p: string): string {
    if HasPrefix(s, p) then s[|p|..] else s
  }

  /** strings.Contains */
  predicate Contains(s: string, sub: string) {
    HasPrefix(s, sub) || (s != "" && Contains(s[1..], sub))
  }

  predicate OccursAt(s: string, sub: string, i: int) {
    0 <= i <= |s| - |sub| && s[i..i + |sub|] == sub
  }

  lemma OccursInRest(s: string, sub: string, i: int)
    requires s != "" && i > 0
    ensures OccursAt(s, sub, i) <==> OccursAt(s[1..], sub, i - 1)
  {
    if i <= |s| - |sub| {
      assert s[1..][i - 1..i - 1 + |sub|] == s[i..i + |sub|];
    }
  }

  lemma {:induction false} ContainsExactly(s: string, sub: string)
    ensures Contains(s, sub) <==> exists i :: OccursAt(s, sub, i)
  {
    assert HasPrefix(s, sub) <==> OccursAt(s, sub, 0);
    if s != "" {
      ContainsExactly(s[1..], sub);
      forall i | i > 0 ensures OccursAt(s, sub, i) <==> OccursAt(s[1..], sub, i - 1) {
        OccursInRest(s, sub, i);
      }
      if i :| OccursAt(s[1..], sub, i) {
        assert OccursAt(s, sub, i + 1);
      }
    }
  }

  /** strings.Split on a one-character separator. */
  function Split(s: string, c: char): (parts: seq<string>)
    ensures |parts| >= 1
  {
    var i := IndexOf(s, c);
    if i < 0 then [s] else [s[..i]] + Split(s[i + 1..], c)
  }

  predicate WithoutChar(parts: seq<string>, c: char) {
    forall i :: 0 <= i < |parts| ==> c !in parts[i]
  }

  lemma WithoutCharCons(part: string, parts: seq<string>, c: char)
    requires c !in part && WithoutChar(parts, c)
    ensures WithoutChar([part] + parts, c)
  {
  }

  lemma {:induction false} SplitParts(s: string, c: char)
    ensures WithoutChar(Split(s, c), c)
  {
    var i := IndexOf(s, c);
    if i >= 0 {
      SplitParts(s[i + 1..], c);
      WithoutCharCons(s[..i], Split(s[i + 1..], c), c);
    }
  }

  /** strings.Join with a one-character separator. */
  function Join(parts: seq<string>, c: char): string {
    if parts == [] then ""
    else if |parts| == 1 then parts[0]
    else parts[0] + [c] + Join(parts[1..], c)
  }

  lemma JoinCons(part: string, rest: seq<string>, c: char)
    requires rest != []
    ensures Join([part] + rest, c) == part + [c] + Join(rest, c)
  {
    assert ([part] + rest)[1..] == rest;
  }

  lemma {:induction false} JoinSplit(s: string, c: char)
    ensures Join(Split(s, c), c) == s
  {
    var i := IndexOf(s, c);
    if i >= 0 {
      JoinSplit(s[i + 1..], c);
      JoinCons(s[..i], Split(s[i + 1..], c), c);
      assert s == s[..i] + [c] + s[i + 1..];
    }
  }

  lemma SplitFirstPart(part: string, c: char, rest: string)
    requires c !in part
    ensures Split(part + [c] + rest, c) == [part] + Split(rest, c)
  {
    var s := part + [c] + rest;
    IndexOfFirst(part, c, rest);
    assert s[..|part|] == part && s[|part| + 1..] == rest;
  }

  /** Splitting gives back any parts that were joined, if they are free of the separator. */
  lemma {:induction false} SplitJoin(parts: seq<string>, c: char)
    requires parts != [] && WithoutChar(parts, c)
    ensures Split(Join(parts, c), c) == parts
  {
    if |parts| == 1 {
      assert IndexOf(parts[0], c) < 0;
      LoneList(parts);
    } else {
      SplitJoin(parts[1..], c);
      SplitFirstPart(parts[0], c, Join(parts[1..], c));
      FirstAndRest(parts);
    }
  }

  lemma LoneList<T>(s: seq<T>)
    requires |s| == 1
    ensures s == [s[0]]
  {
  }

  lemma FirstAndRest<T>(s: seq<T>)
    requires s != []
    ensures s == [s[0]] + s[1..]
  {
  }

  // ---------------------------------------------------------------- bufio.ScanLines

  function DropCR(s: string): string {
    if s != "" && s[|s| - 1] == '\r' then s[..|s| - 1] else s
  }

  lemma TrimSpaceIgnoresCR(s: string)
    ensures TrimSpace(DropCR(s)) == TrimSpace(s)
  {
    if s != "" && s[|s| - 1] == '\r' {
      TrimSpaceSnoc(s[..|s| - 1], '\r');
      assert s == s[..|s| - 1] + ['\r'];
    }
  }

  /** The lines a bufio.Scanner yields: split at '\n', one trailing '\r' dropped, no empty last line. */
  function ScanLines(s: string): seq<string> {
    if s == "" then []
    else
      var i := IndexOf(s, '\n');
      if i < 0 then [DropCR(s)] else [DropCR(s[..i])] + ScanLines(s[i + 1..])
  }

  /** The text ends where a line ends. */
  predicate EndsAtLine(s: string) {
    s == "" || s[|s| - 1] == '\n'
  }

  lemma ScanFirstLine(line: string, rest: string)
    requires '\n' !in line
    ensures ScanLines(line + ['\n'] + rest) == [DropCR(line)] + ScanLines(rest)
  {
    var s := line + ['\n'] + rest;
    IndexOfFirst(line, '\n', rest);
    assert s[..|line|] == line && s[|line| + 1..] == rest;
  }

  lemma FirstLine(s: string) returns (line: string, rest: string)
    requires '\n' in s
    ensures s == line + ['\n'] + rest && '\n' !in line
  {
    var i := IndexOf(s, '\n');
    line, rest := s[..i], s[i + 1..];
  }

  lemma Associative(a: string, b: string, c: string, d: string)
    ensures (a + b + c) + d == a + b + (c + d)
  {
  }

  lemma RestEndsAtLine(line: string, rest: string)
    requires EndsAtLine(line + ['\n'] + rest)
    ensures EndsAtLine(rest)
  {
  }

  lemma ConsAppend<T>(x: T, a: seq<T>, b: seq<T>)
    ensures [x] + (a + b) == ([x] + a) + b
  {
  }

  lemma ScanAppendStep(line: string, rest: string, b: string)
    requires '\n' !in line && ScanLines(rest + b) == ScanLines(rest) + ScanLines(b)
    ensures ScanLines((line + ['\n'] + rest) + b) == ScanLines(line + ['\n'] + rest) + ScanLines(b)
  {
    ScanFirstLine(line, rest);
    ScanFirstLine(line, rest + b);
    Associative(line, ['\n'], rest, b);
    ConsAppend(DropCR(line), ScanLines(rest), ScanLines(b));
  }

  lemma {:induction false} ScanLinesAppend(a: string, b: string)
    requires EndsAtLine(a)
    ensures ScanLines(a + b) == ScanLines(a) + ScanLines(b)
    decreases |a|
  {
    if a == "" {
      assert a + b == b;
      assert ScanLines(a) == [];
    } else {
      assert a[|a| - 1] in a;
      var line, rest := FirstLine(a);
      RestEndsAtLine(line, rest);
      ScanLinesAppend(rest, b);
      ScanAppendStep(line, rest, b);
    }
  }

  /** Every line followed by a newline. */
  function Terminate(lines: seq<string>): string {
    if lines == [] then "" else lines[0] + ['\n'] + Terminate(lines[1..])
  }

  predicate NewlineFree(lines: seq<string>) {
    WithoutChar(lines, '\n')
  }

  lemma {:induction false} ScannedLinesAreNewlineFree(s: string)
    ensures NewlineFree(ScanLines(s))
    decreases |s|
  {
    if '\n' in s {
      var line, rest := FirstLine(s);
      ScanFirstLine(line, rest);
      ScannedLinesAreNewlineFree(rest);
      WithoutCharCons(DropCR(line), ScanLines(rest), '\n');
    }
  }

  function DropCRs(lines: seq<string>): seq<string> {
    seq(|lines|, i requires 0 <= i < |lines| => DropCR(lines[i]))
  }

  lemma WithoutCharAppend(a: seq<string>, b: seq<string>, c: char)
    requires WithoutChar(a, c) && WithoutChar(b, c)
    ensures WithoutChar(a + b, c)
  {
  }

  lemma {:induction false} ScanTerminated(lines: seq<string>)
    requires NewlineFree(lines)
    ensures ScanLines(Terminate(lines)) == DropCRs(lines)
  {
    if lines != [] {
      ScanFirstLine(lines[0], Terminate(lines[1..]));
      ScanTerminated(lines[1..]);
      DropCRsFirst(lines);
    }
  }

  lemma DropCRsFirst(lines: seq<string>)
    requires lines != []
    ensures DropCRs(lines) == [DropCR(lines[0])] + DropCRs(lines[1..])
  {
  }

  lemma {:induction false} TerminateAppend(a: seq<string>, b: seq<string>)
    ensures Terminate(a + b) == Terminate(a) + Terminate(b)
  {
    if a == [] {
      assert a + b == b;
    } else {
      assert (a + b)[1..] == a[1..] + b;
      TerminateAppend(a[1..], b);
    }
  }
}
