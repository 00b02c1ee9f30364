/** The law of the `.env` file: what reading it gives after a key has been saved, for every file, key and
    value. A value may hold newlines; they break its line in two when the file is read back. */
module DotEnvLaw {
  import opened Common
  import opened Text
  import opened DotEnv

  // ---------------------------------------------------------------- space around a text

  predicate Blank(s: string) {
    forall i :: 0 <= i < |s| ==> IsSpace(s[i])
  }

  lemma {:induction false} TrimLeftOff(s: string) returns (l: string)
    ensures s == l + TrimLeft(s) && Blank(l)
  {
    l := "";
    if s != "" && IsSpace(s[0]) {
      l := TrimLeftOff(s[1..]);
      l := [s[0]] + l;
    }
  }

  lemma {:induction false} TrimRightOff(s: string) returns (r: string)
    ensures s == TrimRight(s) + r && Blank(r)
  {
    r := "";
    if s != "" && IsSpace(s[|s| - 1]) {
      var init, last := s[..|s| - 1], s[|s| - 1];
      var r' := TrimRightOff(init);
      BlankSnoc(r', last);
      assert TrimRight(init) + (r' + [last]) == (TrimRight(init) + r') + [last];
      r := r' + [last];
    }
  }

  lemma TrimParts(s: string) returns (l: string, r: string)
    ensures s == l + TrimSpace(s) + r && Blank(l) && Blank(r)
  {
    l := TrimLeftOff(s);
    r := TrimRightOff(TrimLeft(s));
    assert l + (TrimSpace(s) + r) == l + TrimSpace(s) + r;
  }

  lemma BlankSnoc(r: string, c: char)
    ensures Blank(r + [c]) <==> Blank(r) && IsSpace(c)
  {
    assert forall i :: 0 <= i < |r| ==> (r + [c])[i] == r[i];
    assert (r + [c])[|r|] == c;
  }

  lemma OneMoreSpace(s: string, r: string, c: char)
    requires IsSpace(c)
    ensures TrimRight(s + (r + [c])) == TrimRight(s + r) && TrimSpace(s + (r + [c])) == TrimSpace(s + r)
  {
    assert s + (r + [c]) == (s + r) + [c];
    assert ((s + r) + [c])[..|s + r|] == s + r;
    TrimSpaceSnoc(s + r, c);
  }

  lemma {:induction false} TrimBlankRight(s: string, r: string)
    requires Blank(r)
    ensures TrimRight(s + r) == TrimRight(s) && TrimSpace(s + r) == TrimSpace(s)
  {
    if r == "" {
      assert s + r == s;
    } else {
      var init, last := r[..|r| - 1], r[|r| - 1];
      assert r == init + [last];
      BlankSnoc(init, last);
      TrimBlankRight(s, init);
      OneMoreSpace(s, init, last);
    }
  }

  // ---------------------------------------------------------------- what is left when quotes and escapes go

  function Count(s: string, c: char): nat {
    if s == "" then 0 else (if s[0] == c then 1 else 0) + Count(s[1..], c)
  }

  lemma {:induction false} CountAppend(a: string, b: string, c: char)
    ensures Count(a + b, c) == Count(a, c) + Count(b, c)
  {
    if a == "" {
      assert a + b == b;
    } else {
      assert (a + b)[1..] == a[1..] + b;
      CountAppend(a[1..], b, c);
    }
  }

  lemma {:induction false} CountPositive(s: string, c: char)
    ensures Count(s, c) > 0 <==> c in s
  {
    if s != "" {
      CountPositive(s[1..], c);
      assert s == [s[0]] + s[1..];
    }
  }

  lemma {:induction false} CountReplaced(s: string, a: char, b: char, to: char, c: char)
    requires c != a && c != b && c != to
    ensures Count(ReplacePair(s, a, b, to), c) == Count(s, c)
  {
    if |s| >= 2 {
      if s[0] == a && s[1] == b {
        CountReplaced(s[2..], a, b, to, c);
        assert s[1..][1..] == s[2..];
        assert ([to] + ReplacePair(s[2..], a, b, to))[1..] == ReplacePair(s[2..], a, b, to);
      } else {
        CountReplaced(s[1..], a, b, to, c);
        assert ([s[0]] + ReplacePair(s[1..], a, b, to))[1..] == ReplacePair(s[1..], a, b, to);
      }
    }
  }

  lemma {:induction false} ReplacedKeeps(s: string, a: char, b: char, to: char, c: char)
    requires c != a && c != b && c in s
    ensures c in ReplacePair(s, a, b, to)
  {
    if |s| >= 2 {
      if s[0] == a && s[1] == b {
        assert s == [s[0]] + [s[1]] + s[2..];
        ReplacedKeeps(s[2..], a, b, to, c);
      } else if s[0] != c {
        assert s == [s[0]] + s[1..];
        ReplacedKeeps(s[1..], a, b, to, c);
      }
    }
  }

  function Escaped(s: string): string {
    ReplacePair(ReplacePair(ReplacePair(s, '\\', 'n', '\n'), '\\', 't', '\t'), '\\', '\\', '\\')
  }

  lemma CountEscaped(s: string, c: char)
    requires c != '\\' && c != 'n' && c != 't' && c != '\n' && c != '\t'
    ensures Count(Escaped(s), c) == Count(s, c)
  {
    var x := ReplacePair(s, '\\', 'n', '\n');
    CountReplaced(s, '\\', 'n', '\n', c);
    CountReplaced(x, '\\', 't', '\t', c);
    CountReplaced(ReplacePair(x, '\\', 't', '\t'), '\\', '\\', '\\', c);
  }

  lemma NewlineEscaped(s: string)
    requires '\n' in s
    ensures '\n' in Escaped(s)
  {
    var x := ReplacePair(s, '\\', 'n', '\n');
    ReplacedKeeps(s, '\\', 'n', '\n', '\n');
    ReplacedKeeps(x, '\\', 't', '\t', '\n');
    ReplacedKeeps(ReplacePair(x, '\\', 't', '\t'), '\\', '\\', '\\', '\n');
  }

  lemma Quotes(v: string, q: char)
    requires QuotedBy(v, q)
    ensures v == [q] + v[1..|v| - 1] + [q]
  {
  }

  /** Unquoting keeps every '=', and takes two double quotes off a text in double quotes. */
  lemma CountUnquoted(v: string)
    ensures Count(Unquote(v), '=') == Count(v, '=')
    ensures Count(Unquote(v), '"') == Count(v, '"') - if QuotedBy(v, '"') then 2 else 0
  {
    if QuotedBy(v, '"') {
      CountInQuotes(v, '"', '=');
      CountInQuotes(v, '"', '"');
      CountEscaped(v[1..|v| - 1], '=');
      CountEscaped(v[1..|v| - 1], '"');
      assert Unquote(v) == Escaped(v[1..|v| - 1]);
    } else if QuotedBy(v, '\'') {
      CountInQuotes(v, '\'', '=');
      CountInQuotes(v, '\'', '"');
    }
  }

  lemma CountInQuotes(v: string, q: char, c: char)
    requires QuotedBy(v, q)
    ensures Count(v, c) == Count(v[1..|v| - 1], c) + if q == c then 2 else 0
  {
    Quotes(v, q);
    CountAppend([q] + v[1..|v| - 1], [q], c);
    CountAppend([q], v[1..|v| - 1], c);
    assert [q][1..] == "";
  }

  lemma NewlineUnquoted(v: string)
    requires Trimmed(v) && '\n' in v
    ensures '\n' in Unquote(v)
  {
    if QuotedBy(v, '"') {
      Quotes(v, '"');
      NewlineEscaped(v[1..|v| - 1]);
    } else if QuotedBy(v, '\'') {
      Quotes(v, '\'');
    }
  }

  /** A longer text does not unquote to the same: when it has one more '=', ... */
  lemma UnquoteTellsEquals(t: string, w: string)
    requires Count(t, '=') > Count(w, '=')
    ensures Unquote(t) != Unquote(w)
  {
    CountUnquoted(t);
    CountUnquoted(w);
  }

  /** ... or when it goes on over a newline. */
  lemma UnquoteTellsNewline(w: string, rest: string)
    requires w != "" && '\n' !in w && '\n' in rest && Trimmed(w + rest)
    ensures Unquote(w + rest) != Unquote(w)
  {
    var t := w + rest;
    if QuotedBy(w, '"') {
      CountUnquoted(t);
      CountUnquoted(w);
      CountAppend(w, rest, '"');
      if QuotedBy(t, '"') {
        assert rest[|rest| - 1] == '"';
        CountPositive(rest, '"');
      }
    } else {
      NewlineUnquoted(t);
      assert '\n' !in Unquote(w);
    }
  }

  lemma CountBlank(s: string, c: char)
    requires Blank(s) && !IsSpace(c)
    ensures Count(s, c) == 0
  {
    CountPositive(s, c);
  }

  lemma CountTrimmed(s: string, c: char)
    requires !IsSpace(c)
    ensures Count(TrimSpace(s), c) == Count(s, c)
  {
    var l, r := TrimParts(s);
    CountAppend(l + TrimSpace(s), r, c);
    CountAppend(l, TrimSpace(s), c);
    CountBlank(l, c);
    CountBlank(r, c);
  }

  // ---------------------------------------------------------------- lines that hold newlines

  lemma SplitOne(s: string)
    requires '\n' !in s
    ensures Split(s, '\n') == [s]
  {
  }

  lemma {:induction false} SplitPiece(s: string, j: nat) returns (a: string, b: string)
    requires j < |Split(s, '\n')|
    ensures s == a + Split(s, '\n')[j] + b
    decreases |s|
  {
    a, b := "", "";
    if '\n' in s {
      var line, rest := FirstLine(s);
      SplitFirstPart(line, '\n', rest);
      if j == 0 {
        b := ['\n'] + rest;
        FirstPiece(line, rest);
      } else {
        a, b := SplitPiece(rest, j - 1);
        Pieced(line + ['\n'], a, Split(rest, '\n')[j - 1], b);
        a := line + ['\n'] + a;
      }
    } else {
      SplitOne(s);
    }
  }

  lemma FirstPiece(line: string, rest: string)
    ensures line + ['\n'] + rest == "" + line + (['\n'] + rest)
  {
  }

  lemma Pieced(head: string, a: string, piece: string, b: string)
    ensures head + (a + piece + b) == (head + a) + piece + b
  {
  }

  /** The lines that are read back where these were written. */
  function Exploded(lines: seq<string>): seq<string> {
    if lines == [] then [] else Exploded(lines[..|lines| - 1]) + Split(lines[|lines| - 1], '\n')
  }

  lemma {:induction false} ExplodedIsNewlineFree(lines: seq<string>)
    ensures NewlineFree(Exploded(lines))
  {
    if lines != [] {
      ExplodedIsNewlineFree(lines[..|lines| - 1]);
      SplitParts(lines[|lines| - 1], '\n');
      WithoutCharAppend(Exploded(lines[..|lines| - 1]), Split(lines[|lines| - 1], '\n'), '\n');
    }
  }

  lemma {:induction false} JoinAppend(a: seq<string>, b: seq<string>)
    requires a != [] && b != []
    ensures Join(a + b, '\n') == Join(a, '\n') + ['\n'] + Join(b, '\n')
  {
    if |a| == 1 {
      assert a + b == [a[0]] + b;
      JoinCons(a[0], b, '\n');
    } else {
      var rest := a[1..];
      JoinAppend(rest, b);
      assert a + b == [a[0]] + (rest + b) && a == [a[0]] + rest;
      JoinCons(a[0], rest + b, '\n');
      JoinCons(a[0], rest, '\n');
      Associative(a[0], ['\n'], Join(rest, '\n'), ['\n'] + Join(b, '\n'));
      assert Join(rest, '\n') + (['\n'] + Join(b, '\n')) == Join(rest, '\n') + ['\n'] + Join(b, '\n');
      assert Join(a, '\n') + (['\n'] + Join(b, '\n')) == Join(a, '\n') + ['\n'] + Join(b, '\n');
    }
  }

  lemma {:induction false} JoinExploded(lines: seq<string>)
    requires lines != []
    ensures Exploded(lines) != [] && Join(Exploded(lines), '\n') == Join(lines, '\n')
  {
    var init, last := lines[..|lines| - 1], lines[|lines| - 1];
    JoinSplit(last, '\n');
    assert lines == init + [last];
    if init == [] {
      assert Exploded(lines) == Split(last, '\n') && lines == [last];
    } else {
      JoinExploded(init);
      JoinAppend(Exploded(init), Split(last, '\n'));
      JoinAppend(init, [last]);
    }
  }

  /** Written lines read back as their pieces. */
  lemma LoadRenderedPieces(lines: seq<string>, env: EnvMap)
    ensures LoadLines(ScanLines(Render(lines)), env) == LoadLines(Exploded(lines), env)
  {
    if lines != [] {
      JoinExploded(lines);
    }
    assert Render(Exploded(lines)) == Render(lines);
    ExplodedIsNewlineFree(lines);
    LoadRendered(Exploded(lines), env);
  }

  lemma {:induction false} LoadAppend(a: seq<string>, b: seq<string>, env: EnvMap)
    ensures LoadLines(a + b, env) == LoadLines(b, LoadLines(a, env))
  {
    if b == [] {
      assert a + b == a;
    } else {
      assert (a + b)[..|a + b| - 1] == a + b[..|b| - 1];
      LoadAppend(a, b[..|b| - 1], env);
    }
  }

  lemma LoadOne(line: string, env: EnvMap)
    ensures LoadLines([line], env) == LoadLine(env, line)
  {
    assert [line][..0] == [];
  }

  // ---------------------------------------------------------------- the pieces of one setting

  /** What is read back where a setting was written. */
  function Pieces(k: string, v: string): seq<string> {
    Split(Setting(k, v), '\n')
  }

  lemma PiecesOf(k: string, first: string, rest: string)
    requires '\n' !in k && '\n' !in first
    ensures Pieces(k, first) == [Setting(k, first)]
    ensures Pieces(k, first + ['\n'] + rest) == [Setting(k, first)] + Split(rest, '\n')
  {
    assert '\n' !in Setting(k, first);
    SplitOne(Setting(k, first));
    assert Setting(k, first + ['\n'] + rest) == Setting(k, first) + ['\n'] + rest;
    SplitFirstPart(Setting(k, first), '\n', rest);
  }

  lemma SetsNothing(line: string)
    requires '=' !in line
    ensures KeyOf(line).None?
  {
    TrimSpaceTrims(line);
  }

  lemma {:induction false} QuietPieces(s: string, env: EnvMap)
    requires '=' !in s
    ensures LoadLines(Split(s, '\n'), env) == env
    decreases |s|
  {
    if '\n' in s {
      var line, rest := FirstLine(s);
      SplitFirstPart(line, '\n', rest);
      SetsNothing(line);
      LoadOne(line, env);
      LoadAppend([line], Split(rest, '\n'), env);
      QuietPieces(rest, env);
    } else {
      SplitOne(s);
      SetsNothing(s);
      LoadOne(s, env);
    }
  }

  /** The value outlives its newlines: there are none but trailing ones, or it reads as empty anyway. */
  predicate Lasts(v: string) {
    '\n' !in TrimRight(v) || Unquote(TrimSpace(v)) == ""
  }

  lemma TrimLeftBlank(l: string, s: string)
    requires Blank(l) && s != "" && !IsSpace(s[0])
    ensures TrimLeft(l + s) == s
    decreases |l|
  {
    if l == "" {
      assert l + s == s;
    } else {
      assert (l + s)[1..] == l[1..] + s;
      TrimLeftBlank(l[1..], s);
    }
  }

  /** If the value goes on after its first line, and that line is not blank, the trimmed value goes on over a
      newline after the trimmed line. */
  lemma TrimAround(l: string, w: string, tail: string)
    requires Blank(l) && w != "" && Trimmed(w)
    ensures TrimSpace(l + (w + tail)) == w + TrimRight(tail)
  {
    assert !IsSpace(w[0]) && (w + tail)[0] == w[0];
    TrimLeftBlank(l, w + tail);
    TrimRightOfSuffix(w, tail);
  }

  lemma TrimRightAfter(all: string, head: string, tail: string)
    requires all == head + tail && head != "" && !IsSpace(head[|head| - 1])
    ensures TrimRight(all) == head + TrimRight(tail)
  {
    TrimRightOfSuffix(head, tail);
  }

  lemma TrimRightAround(l: string, w: string, tail: string)
    requires w != "" && Trimmed(w)
    ensures TrimRight(l + (w + tail)) == (l + w) + TrimRight(tail)
  {
    assert l + (w + tail) == (l + w) + tail;
    assert (l + w)[|l + w| - 1] == w[|w| - 1];
    TrimRightAfter(l + (w + tail), l + w, tail);
  }

  lemma FirstLineOfValue(first: string, rest: string) returns (more: string)
    requires '\n' !in first && '\n' in TrimRight(first + ['\n'] + rest) && TrimSpace(first) != ""
    ensures TrimSpace(first + ['\n'] + rest) == TrimSpace(first) + more && '\n' in more
  {
    var w := TrimSpace(first);
    var l, r := TrimParts(first);
    TrimSpaceTrims(first);
    TrimAround(l, w, r + ['\n'] + rest);
    TrimRightAround(l, w, r + ['\n'] + rest);
    ValueParts(l, w, r, rest);
    more := TrimRight(r + ['\n'] + rest);
    assert '\n' !in l + w by {
      assert first == (l + w) + r;
    }
  }

  lemma ValueParts(l: string, w: string, r: string, rest: string)
    ensures (l + w + r) + ['\n'] + rest == l + (w + (r + ['\n'] + rest))
  {
  }

  lemma NoEqualsInEmpty(v: string)
    requires Unquote(TrimSpace(v)) == ""
    ensures '=' !in v
  {
    CountUnquoted(TrimSpace(v));
    CountTrimmed(v, '=');
    CountPositive(v, '=');
  }

  lemma TailIsBlank(first: string, tail: string)
    requires '\n' !in first && HasPrefix(tail, ['\n']) && '\n' !in TrimRight(first + tail)
    ensures Blank(tail)
  {
    var r := TrimRightOff(first + tail);
    TrailingLines(first, tail[1..], TrimRight(first + tail), r);
    assert tail == ['\n'] + tail[1..];
    assert first + tail == first + ['\n'] + tail[1..];
  }

  lemma BlankHasNoEquals(tail: string, rest: string)
    requires tail == ['\n'] + rest && Blank(tail)
    ensures '=' !in rest
  {
    assert forall i :: 0 <= i < |rest| ==> rest[i] == tail[i + 1];
  }

  lemma QuietTrailing(first: string, rest: string)
    requires '\n' !in first && '\n' !in TrimRight(first + ['\n'] + rest)
    ensures '=' !in rest && TrimSpace(first) == TrimSpace(first + ['\n'] + rest)
  {
    var tail := ['\n'] + rest;
    assert first + ['\n'] + rest == first + tail;
    TailIsBlank(first, tail);
    BlankHasNoEquals(tail, rest);
    TrimBlankRight(first, tail);
  }

  lemma QuietEmpty(first: string, rest: string)
    requires '\n' !in first && '\n' in TrimRight(first + ['\n'] + rest)
             && Unquote(TrimSpace(first + ['\n'] + rest)) == ""
    ensures '=' !in rest && TrimSpace(first) == ""
  {
    var v := first + ['\n'] + rest;
    NoEqualsInEmpty(v);
    if TrimSpace(first) != "" {
      var more := FirstLineOfValue(first, rest);
      TrimSpaceTrims(v);
      NewlineUnquoted(TrimSpace(v));
    }
  }

  lemma QuietRest(first: string, rest: string)
    requires '\n' !in first && Lasts(first + ['\n'] + rest)
    ensures '=' !in rest && Unquote(TrimSpace(first)) == Unquote(TrimSpace(first + ['\n'] + rest))
  {
    if '\n' !in TrimRight(first + ['\n'] + rest) {
      QuietTrailing(first, rest);
    } else {
      QuietEmpty(first, rest);
    }
  }

  lemma NewlineInside(first: string, rest: string, t: string, r: string)
    requires first + ['\n'] + rest == t + r && |first| < |t|
    ensures '\n' in t
  {
    assert (first + ['\n'] + rest)[|first|] == '\n';
    assert (t + r)[|first|] == t[|first|];
  }

  lemma TrailingLines(first: string, rest: string, t: string, r: string)
    requires first + ['\n'] + rest == t + r && '\n' !in t && Blank(r)
    ensures Blank(['\n'] + rest)
  {
    var v := t + r;
    if |first| < |t| {
      NewlineInside(first, rest, t, r);
    }
    assert ['\n'] + rest == v[|first|..] == r[|first| - |t|..];
  }

  lemma SettingLoads(k: string, first: string, env: EnvMap)
    requires WellFormedKey(k)
    ensures LoadLines([Setting(k, first)], env) == env[k := Unquote(TrimSpace(first))]
  {
    SettingIsReadBack(k, first);
    LoadOne(Setting(k, first), env);
  }

  /** A value that lasts: its pieces set the key to the trimmed, unquoted value and nothing else. */
  lemma PiecesLoad(k: string, v: string, env: EnvMap)
    requires WellFormedKey(k) && Lasts(v)
    ensures LoadLines(Pieces(k, v), env) == env[k := Unquote(TrimSpace(v))]
  {
    if '\n' in v {
      var first, rest := FirstLine(v);
      PiecesOf(k, first, rest);
      QuietRest(first, rest);
      SettingLoads(k, first, env);
      LoadAppend([Setting(k, first)], Split(rest, '\n'), env);
      QuietPieces(rest, env[k := Unquote(TrimSpace(first))]);
    } else {
      PiecesOf(k, v, "");
      SettingLoads(k, v, env);
    }
  }

  // ---------------------------------------------------------------- a value that does not last

  /** The line that has the last word on a key, if any sets it. */
  lemma {:induction false} LastWord(lines: seq<string>, k: string, env: EnvMap) returns (j: int)
    ensures -1 <= j < |lines| && (j >= 0 ==> Sets(lines[j], k))
    ensures if j >= 0 then k in LoadLines(lines, env) && LoadLines(lines, env)[k] == ValueOf(lines[j])
            else (k in LoadLines(lines, env) <==> k in env) && (k in env ==> LoadLines(lines, env)[k] == env[k])
  {
    j := |lines| - 1;
    if lines != [] && !Sets(lines[j], k) {
      j := LastWord(lines[..j], k, env);
    }
  }

  lemma CountAround(t: string, i: nat)
    requires i < |t| && t[i] == '='
    ensures Count(t[i + 1..], '=') < Count(t, '=')
  {
    assert t == t[..i] + ([t[i]] + t[i + 1..]);
    CountAppend(t[..i], [t[i]] + t[i + 1..], '=');
  }

  lemma LineParts(line: string, t: string, i: int)
    requires KeyOf(line).Some? && t == TrimSpace(line) && i == IndexOf(t, '=')
    ensures 0 < i < |t| && t[i] == '=' && ValueOf(line) == Unquote(TrimSpace(t[i + 1..]))
  {
  }

  /** The raw value of a line has fewer '=' than the line. */
  lemma RawValue(line: string) returns (w: string)
    requires KeyOf(line).Some?
    ensures ValueOf(line) == Unquote(w) && Count(w, '=') < Count(line, '=')
  {
    var t := TrimSpace(line);
    var i := IndexOf(t, '=');
    LineParts(line, t, i);
    var raw := t[i + 1..];
    w := TrimSpace(raw);
    CountAround(t, i);
    CountTrimmed(raw, '=');
    CountTrimmed(line, '=');
  }

  lemma CountPart(a: string, line: string, b: string, c: char)
    ensures Count(line, c) <= Count(a + line + b, c)
  {
    CountAppend(a + line, b, c);
    CountAppend(a, line, c);
  }

  /** A line of the value that sets anything sets it to less than the value. */
  lemma LineDiffers(v: string, a: string, line: string, b: string)
    requires v == a + line + b && KeyOf(line).Some?
    ensures ValueOf(line) != Unquote(TrimSpace(v))
  {
    var w := RawValue(line);
    CountPart(a, line, b, '=');
    CountTrimmed(v, '=');
    UnquoteTellsEquals(TrimSpace(v), w);
  }

  lemma PieceDiffers(v: string, j: nat)
    requires j < |Split(v, '\n')| && KeyOf(Split(v, '\n')[j]).Some?
    ensures ValueOf(Split(v, '\n')[j]) != Unquote(TrimSpace(v))
  {
    var a, b := SplitPiece(v, j);
    LineDiffers(v, a, Split(v, '\n')[j], b);
  }

  lemma ValueIsNoLonger(line: string)
    requires KeyOf(line).Some?
    ensures |ValueOf(line)| <= |line|
  {
    var t := TrimSpace(line);
    var i := IndexOf(t, '=');
    LineParts(line, t, i);
    TrimSpaceTrims(line);
    TrimSpaceTrims(t[i + 1..]);
  }

  lemma PieceIsShorter(v: string, j: nat)
    requires '\n' in v && j < |Split(v, '\n')| && KeyOf(Split(v, '\n')[j]).Some?
    ensures |ValueOf(Split(v, '\n')[j])| < |v|
  {
    var piece := Split(v, '\n')[j];
    var a, b := SplitPiece(v, j);
    SplitParts(v, '\n');
    ValueIsNoLonger(piece);
    assert |piece| == |v| ==> piece == v;
  }

  lemma FirstPieceDiffers(first: string, rest: string)
    requires '\n' !in first && !Lasts(first + ['\n'] + rest)
    ensures Unquote(TrimSpace(first)) != Unquote(TrimSpace(first + ['\n'] + rest))
  {
    var v := first + ['\n'] + rest;
    if TrimSpace(first) != "" {
      var more := FirstLineOfValue(first, rest);
      TrimSpaceTrims(v);
      TrimSpaceTrims(first);
      UnquoteTellsNewline(TrimSpace(first), more);
    }
  }

  lemma LaterPieces(k: string, first: string, rest: string, env: EnvMap)
    requires '\n' !in first && !Lasts(first + ['\n'] + rest)
    requires k in env && env[k] == Unquote(TrimSpace(first))
    ensures Spoilt(LoadLines(Split(rest, '\n'), env), k, first + ['\n'] + rest)
  {
    var v := first + ['\n'] + rest;
    var j := LastWord(Split(rest, '\n'), k, env);
    SplitFirstPart(first, '\n', rest);
    if j >= 0 {
      PieceDiffers(v, j + 1);
      PieceIsShorter(v, j + 1);
    } else {
      FirstPieceDiffers(first, rest);
      TrimSpaceTrims(first);
      assert |Unquote(TrimSpace(first))| <= |first| < |v|;
    }
  }

  /** The key has a value that is neither the one saved nor what it should read as. */
  predicate Spoilt(env: EnvMap, k: string, v: string) {
    k in env && env[k] != Unquote(TrimSpace(v)) && env[k] != v
  }

  /** A value that does not last: its pieces leave the key with another one. */
  lemma PiecesLoadOther(k: string, v: string, env: EnvMap)
    requires WellFormedKey(k) && !Lasts(v)
    ensures Spoilt(LoadLines(Pieces(k, v), env), k, v)
  {
    TrimRightEnds(v);
    var first, rest := FirstLine(v);
    PiecesOf(k, first, rest);
    SettingLoads(k, first, env);
    LoadAppend([Setting(k, first)], Split(rest, '\n'), env);
    LaterPieces(k, first, rest, env[k := Unquote(TrimSpace(first))]);
  }

  // ---------------------------------------------------------------- the whole file

  function Updated(env: EnvMap, k: string, e: string, changed: bool): EnvMap {
    if changed then env[k := e] else env
  }

  function PiecesOfLine(line: string, k: string, v: string): seq<string> {
    if Sets(line, k) then Pieces(k, v) else [line]
  }

  lemma NewlineFreePrefix(lines: seq<string>, line: string)
    requires NewlineFree(lines + [line])
    ensures NewlineFree(lines) && '\n' !in line
  {
    assert (lines + [line])[|lines|] == line;
    assert forall i :: 0 <= i < |lines| ==> (lines + [line])[i] == lines[i];
  }

  lemma ExplodedSnoc(lines: seq<string>, line: string)
    ensures Exploded(lines + [line]) == Exploded(lines) + Split(line, '\n')
  {
    assert (lines + [line])[..|lines|] == lines;
  }

  /** What one more line adds to the new file as it is read back. */
  lemma ReplacedPieces(lines: seq<string>, line: string, k: string, v: string)
    requires '\n' !in line
    ensures Exploded(Replaced(lines + [line], k, v)) == Exploded(Replaced(lines, k, v)) + PiecesOfLine(line, k, v)
  {
    ReplacedSnoc(lines, line, k, v);
    ExplodedSnoc(Replaced(lines, k, v), ReplacedLine(line, k, v));
    if !Sets(line, k) {
      SplitOne(line);
    }
  }

  lemma LoadElsewhere(env: EnvMap, line: string, k: string, e: string, before: bool)
    requires !Sets(line, k)
    ensures LoadLine(Updated(env, k, e, before), line) == Updated(LoadLine(env, line), k, e, before)
  {
  }

  lemma LoadHere(env: EnvMap, line: string, k: string, e: string, before: bool)
    requires Sets(line, k)
    ensures Updated(env, k, e, before)[k := e] == Updated(LoadLine(env, line), k, e, true)
  {
  }

  lemma LoadReplacedLine(env: EnvMap, line: string, k: string, v: string, e: string, before: bool)
    requires WellFormedKey(k) && Lasts(v) && e == Unquote(TrimSpace(v))
    ensures LoadLines(PiecesOfLine(line, k, v), Updated(env, k, e, before))
         == Updated(LoadLine(env, line), k, e, before || Sets(line, k))
  {
    if Sets(line, k) {
      PiecesLoad(k, v, Updated(env, k, e, before));
      LoadHere(env, line, k, e, before);
    } else {
      LoadOne(line, Updated(env, k, e, before));
      LoadElsewhere(env, line, k, e, before);
    }
  }

  /** On the lines that were there, replacing updates the key where it was set and changes nothing else. */
  lemma {:induction false} ReplacedLoads(lines: seq<string>, k: string, v: string, e: string, env: EnvMap)
    requires WellFormedKey(k) && Lasts(v) && NewlineFree(lines) && e == Unquote(TrimSpace(v))
    ensures LoadLines(Exploded(Replaced(lines, k, v)), env) == Updated(LoadLines(lines, env), k, e, SetBySome(lines, k))
  {
    if lines != [] {
      var init, last := lines[..|lines| - 1], lines[|lines| - 1];
      assert lines == init + [last];
      NewlineFreePrefix(init, last);
      ReplacedLoads(init, k, v, e, env);
      SetBySomeSnoc(init, last, k);
      ReplacedPieces(init, last, k, v);
      LoadAppend(Exploded(Replaced(init, k, v)), PiecesOfLine(last, k, v), env);
      LoadReplacedLine(LoadLines(init, env), last, k, v, e, SetBySome(init, k));
    }
  }

  lemma SavedLinesLoad(lines: seq<string>, k: string, v: string, env: EnvMap)
    requires WellFormedKey(k) && Lasts(v) && NewlineFree(lines)
    ensures LoadLines(Exploded(SavedLines(lines, k, v)), env) == LoadLines(lines, env)[k := Unquote(TrimSpace(v))]
  {
    ReplacedLoads(lines, k, v, Unquote(TrimSpace(v)), env);
    if SetBySome(lines, k) {
      assert SavedLines(lines, k, v) == Replaced(lines, k, v);
    } else {
      ExplodedSnoc(Replaced(lines, k, v), Setting(k, v));
      LoadAppend(Exploded(Replaced(lines, k, v)), Pieces(k, v), env);
      PiecesLoad(k, v, LoadLines(lines, env));
    }
  }

  lemma SpoiltElsewhere(env: EnvMap, line: string, k: string, v: string)
    requires !Sets(line, k) && Spoilt(env, k, v)
    ensures Spoilt(LoadLine(env, line), k, v)
  {
  }

  /** Wherever they are read, the pieces leave the key with another value. */
  ghost predicate PiecesSpoil(k: string, v: string) {
    forall env :: SpoilsFrom(k, v, env)
  }

  predicate SpoilsFrom(k: string, v: string, env: EnvMap) {
    Spoilt(LoadLines(Pieces(k, v), env), k, v)
  }

  lemma SpoilReplacedLine(env: EnvMap, line: string, k: string, v: string)
    requires PiecesSpoil(k, v) && (Sets(line, k) || Spoilt(env, k, v))
    ensures Spoilt(LoadLines(PiecesOfLine(line, k, v), env), k, v)
  {
    if Sets(line, k) {
      assert SpoilsFrom(k, v, env);
    } else {
      LoadOne(line, env);
      SpoiltElsewhere(env, line, k, v);
    }
  }

  lemma SpoilOneMore(lines: seq<string>, last: string, k: string, v: string, env: EnvMap)
    requires PiecesSpoil(k, v) && '\n' !in last
    requires Sets(last, k) || Spoilt(LoadLines(Exploded(Replaced(lines, k, v)), env), k, v)
    ensures Spoilt(LoadLines(Exploded(Replaced(lines + [last], k, v)), env), k, v)
  {
    ReplacedPieces(lines, last, k, v);
    LoadAppend(Exploded(Replaced(lines, k, v)), PiecesOfLine(last, k, v), env);
    SpoilReplacedLine(LoadLines(Exploded(Replaced(lines, k, v)), env), last, k, v);
  }

  lemma {:induction false} ReplacedSpoils(lines: seq<string>, k: string, v: string, env: EnvMap)
    requires PiecesSpoil(k, v) && NewlineFree(lines) && SetBySome(lines, k)
    ensures Spoilt(LoadLines(Exploded(Replaced(lines, k, v)), env), k, v)
  {
    var init, last := lines[..|lines| - 1], lines[|lines| - 1];
    assert init + [last] == lines;
    NewlineFreePrefix(init, last);
    if SetBySome(init, k) {
      ReplacedSpoils(init, k, v, env);
    }
    SpoilOneMore(init, last, k, v, env);
  }

  lemma SavedLinesSpoil(lines: seq<string>, k: string, v: string, env: EnvMap)
    requires WellFormedKey(k) && !Lasts(v) && NewlineFree(lines)
    ensures Spoilt(LoadLines(Exploded(SavedLines(lines, k, v)), env), k, v)
  {
    forall e ensures SpoilsFrom(k, v, e) {
      PiecesLoadOther(k, v, e);
    }
    if SetBySome(lines, k) {
      ReplacedSpoils(lines, k, v, env);
      assert SavedLines(lines, k, v) == Replaced(lines, k, v);
    } else {
      ExplodedSnoc(Replaced(lines, k, v), Setting(k, v));
      LoadAppend(Exploded(Replaced(lines, k, v)), Pieces(k, v), env);
      PiecesLoadOther(k, v, LoadLines(Exploded(Replaced(lines, k, v)), env));
    }
  }

  /** For every existing file, key and value: reading the file after saving gives what it set before with
      that key updated and every other key unchanged, if and only if the key is well formed and the value
      lasts. */
  lemma SaveThenLoad(file: Option<string>, k: string, v: string)
    ensures Load(Some(Save(file, k, v)), map[]) == Load(file, map[])[k := Unquote(TrimSpace(v))]
            <==> WellFormedKey(k) && Lasts(v)
  {
    var lines := if file.None? then [] else ScanLines(file.value);
    if file.Some? {
      ScannedLinesAreNewlineFree(file.value);
    }
    if !WellFormedKey(k) {
      ScannedLinesAreNewlineFree(Save(file, k, v));
      LoadedKeysAreWellFormed(ScanLines(Save(file, k, v)), map[]);
      assert k in Load(file, map[])[k := Unquote(TrimSpace(v))];
    } else {
      LoadRenderedPieces(SavedLines(lines, k, v), map[]);
      if Lasts(v) {
        SavedLinesLoad(lines, k, v, map[]);
      } else {
        SavedLinesSpoil(lines, k, v, map[]);
      }
    }
  }

  predicate Quoted(v: string) {
    QuotedBy(v, '"') || QuotedBy(v, '\'')
  }

  /** A value that lasts although it holds a newline is not itself what it reads as. */
  lemma LastingNewline(v: string)
    requires '\n' in v && Lasts(v)
    ensures Unquote(TrimSpace(v)) != v
  {
    UnquotingKeeps(v);
    assert Trimmed(v) ==> TrimRight(v) == v;
  }

  /** What the file gives for the key after saving. */
  lemma SavedKey(file: Option<string>, k: string, v: string)
    ensures var env := Load(Some(Save(file, k, v)), map[]);
            && (k in env <==> WellFormedKey(k))
            && (WellFormedKey(k) && Lasts(v) ==> env[k] == Unquote(TrimSpace(v)))
            && (WellFormedKey(k) && !Lasts(v) ==> Spoilt(env, k, v))
  {
    if !WellFormedKey(k) {
      ScannedLinesAreNewlineFree(Save(file, k, v));
      LoadedKeysAreWellFormed(ScanLines(Save(file, k, v)), map[]);
    } else if Lasts(v) {
      SaveThenLoad(file, k, v);
    } else {
      var lines := if file.None? then [] else ScanLines(file.value);
      if file.Some? {
        ScannedLinesAreNewlineFree(file.value);
      }
      LoadRenderedPieces(SavedLines(lines, k, v), map[]);
      SavedLinesSpoil(lines, k, v, map[]);
    }
  }

  /** For every existing file, key and value: the file gives back the very value saved if and only if the key is
      well formed and the value is trimmed, holds no newline and is not in quotes. */
  lemma ValueSurvives(file: Option<string>, k: string, v: string)
    ensures var env := Load(Some(Save(file, k, v)), map[]);
            k in env && env[k] == v <==> WellFormedKey(k) && Trimmed(v) && '\n' !in v && !Quoted(v)
  {
    SavedKey(file, k, v);
    if '\n' in v {
      if Lasts(v) {
        LastingNewline(v);
      }
    } else {
      TrimRightEnds(v);
      UnquotingKeeps(v);
    }
  }
}
