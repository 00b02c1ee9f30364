/** The `.env` writer (settings/dotenv.go) and reader (settings/envmap.go).

    The writer reads the existing file line by line, replaces every line that sets the key, appends one
    if there was none, and writes the lines back.  The reader takes the same file to a map. */
module DotEnv {
  import opened Common
  import opened Text

  /** strings.ReplaceAll of a two-character sequence by one character: left to right, no overlaps. */
  function ReplacePair(s: string, a: char, b: char, to: char): (r: string)
    ensures |r| <= |s|
  {
    if |s| < 2 then s
    else if s[0] == a && s[1] == b then [to] + ReplacePair(s[2..], a, b, to)
    else [s[0]] + ReplacePair(s[1..], a, b, to)
  }

  predicate QuotedBy(v: string, q: char) {
    |v| >= 2 && v[0] == q && v[|v| - 1] == q
  }

  /** Quotes around a value are dropped; escapes are processed between double quotes only, in the
      order \n, \t, \\. */
  function Unquote(v: string): string {
    if QuotedBy(v, '"') then
      ReplacePair(ReplacePair(ReplacePair(v[1..|v| - 1], '\\', 'n', '\n'), '\\', 't', '\t'), '\\', '\\', '\\')
    else if QuotedBy(v, '\'') then v[1..|v| - 1]
    else v
  }

  /** The key a line sets, if it sets one: neither blank nor a comment, with '=' after the first character. */
  function KeyOf(line: string): Option<string> {
    var trimmed := TrimSpace(line);
    var i := IndexOf(trimmed, '=');
    if trimmed == "" || HasPrefix(trimmed, "#") || i <= 0 then None else Some(TrimSpace(trimmed[..i]))
  }

  function ValueOf(line: string): string
    requires KeyOf(line).Some?
  {
    var trimmed := TrimSpace(line);
    Unquote(TrimSpace(trimmed[IndexOf(trimmed, '=') + 1..]))
  }

  type EnvMap = map<string, string>

  function LoadLine(env: EnvMap, line: string): EnvMap {
    if KeyOf(line).Some? then env[KeyOf(line).value := ValueOf(line)] else env
  }

  function LoadLines(lines: seq<string>, env: EnvMap): EnvMap {
    if lines == [] then env else LoadLine(LoadLines(lines[..|lines| - 1], env), lines[|lines| - 1])
  }

  /** What a file sets, on top of what is already in the map; a missing file sets nothing. */
  function Load(file: Option<string>, env: EnvMap): EnvMap {
    if file.None? then env else LoadLines(ScanLines(file.value), env)
  }

  lemma LoadSnoc(lines: seq<string>, line: string, env: EnvMap)
    ensures LoadLines(lines + [line], env) == LoadLine(LoadLines(lines, env), line)
  {
    assert (lines + [line])[..|lines|] == lines;
  }

  method UnquoteValue(quoted: string) returns (value: string)
    ensures value == Unquote(quoted)
  {
    value := quoted;
    if |value| >= 2 {
      if value[0] == '"' && value[|value| - 1] == '"' {
        value := value[1..|value| - 1];
        value := ReplacePair(value, '\\', 'n', '\n');
        value := ReplacePair(value, '\\', 't', '\t');
        value := ReplacePair(value, '\\', '\\', '\\');
      } else if value[0] == '\'' && value[|value| - 1] == '\'' {
        value := value[1..|value| - 1];
      }
    }
  }

  method LoadEnvLine(text: string, env: EnvMap) returns (r: EnvMap)
    ensures r == LoadLine(env, text)
  {
    r := env;
    var line := TrimSpace(text);
    if line == "" || HasPrefix(line, "#") {
      return;
    }
    var idx := IndexOf(line, '=');
    if idx <= 0 {
      return;
    }
    var value := UnquoteValue(TrimSpace(line[idx + 1..]));
    r := r[TrimSpace(line[..idx]) := value];
  }

  method LoadEnvFileInto(file: Option<string>, env: EnvMap) returns (r: EnvMap)
    ensures r == Load(file, env)
  {
    r := env;
    if file.None? {
      return;
    }
    var lines := ScanLines(file.value);
    for n := 0 to |lines|
      invariant r == LoadLines(lines[..n], env)
    {
      LoadSnoc(lines[..n], lines[n], env);
      Border(lines, n);
      r := LoadEnvLine(lines[n], r);
    }
    assert lines[..|lines|] == lines;
  }

  // ---------------------------------------------------------------- the writer

  function Setting(key: string, value: string): string {
    key + ['='] + value
  }

  predicate Sets(line: string, key: string) {
    KeyOf(line) == Some(key)
  }

  function ReplacedLine(line: string, key: string, value: string): string {
    if Sets(line, key) then Setting(key, value) else line
  }

  /** Every line that sets the key is replaced; the others stay as they are, in place. */
  function Replaced(lines: seq<string>, key: string, value: string): (r: seq<string>)
    ensures |r| == |lines|
  {
    if lines == [] then []
    else Replaced(lines[..|lines| - 1], key, value) + [ReplacedLine(lines[|lines| - 1], key, value)]
  }

  /** No line moves, and no line is dropped or added. */
  lemma {:induction false} ReplacedInPlace(lines: seq<string>, key: string, value: string, i: nat)
    requires i < |lines|
    ensures |Replaced(lines, key, value)| == |lines|
    ensures Replaced(lines, key, value)[i] == ReplacedLine(lines[i], key, value)
  {
    var init, last := lines[..|lines| - 1], lines[|lines| - 1];
    LastOne(lines);
    ReplacedSnoc(init, last, key, value);
    EndAt(Replaced(init, key, value), ReplacedLine(last, key, value), i);
    EndAt(init, last, i);
    if i < |init| {
      ReplacedInPlace(init, key, value, i);
    }
  }

  lemma ReplacedSnoc(lines: seq<string>, line: string, key: string, value: string)
    ensures Replaced(lines + [line], key, value)
         == Replaced(lines, key, value) + [ReplacedLine(line, key, value)]
  {
    assert (lines + [line])[..|lines|] == lines;
  }

  /** Some line sets the key. */
  predicate SetBySome(lines: seq<string>, key: string) {
    lines != [] && (SetBySome(lines[..|lines| - 1], key) || Sets(lines[|lines| - 1], key))
  }

  lemma SetBySomeSnoc(lines: seq<string>, line: string, key: string)
    ensures SetBySome(lines + [line], key) <==> SetBySome(lines, key) || Sets(line, key)
  {
    assert (lines + [line])[..|lines|] == lines;
  }

  function SavedLines(lines: seq<string>, key: string, value: string): seq<string> {
    Replaced(lines, key, value) + if SetBySome(lines, key) then [] else [Setting(key, value)]
  }

  /** The lines joined by newlines, with a final newline unless there is one already. */
  function Render(lines: seq<string>): string {
    var content := Join(lines, '\n');
    if |lines| > 0 && !(content != "" && content[|content| - 1] == '\n') then content + ['\n'] else content
  }

  function Save(file: Option<string>, key: string, value: string): string {
    Render(SavedLines(if file.None? then [] else ScanLines(file.value), key, value))
  }

  ghost predicate SomeSets(lines: seq<string>, key: string) {
    exists i :: 0 <= i < |lines| && Sets(lines[i], key)
  }

  lemma SomeSetsSnoc(lines: seq<string>, line: string, key: string)
    ensures SomeSets(lines + [line], key) <==> SomeSets(lines, key) || Sets(line, key)
  {
    var all := lines + [line];
    assert all[|lines|] == line && forall i :: 0 <= i < |lines| ==> all[i] == lines[i];
  }

  lemma {:induction false} SetBySomeExactly(lines: seq<string>, key: string)
    ensures SetBySome(lines, key) <==> SomeSets(lines, key)
  {
    if lines != [] {
      var init, last := lines[..|lines| - 1], lines[|lines| - 1];
      SetBySomeExactly(init, key);
      SomeSetsSnoc(init, last, key);
      LastOne(lines);
    }
  }

  /** The lines that are written: each line that sets the key becomes key=value in its place, the others stay; if
      there is none that does, key=value comes after the last one. */
  lemma SavedLinesExactly(lines: seq<string>, key: string, value: string, i: nat)
    requires i < |SavedLines(lines, key, value)|
    ensures |SavedLines(lines, key, value)| == |lines| +
              if SomeSets(lines, key) then 0 else 1
    ensures SavedLines(lines, key, value)[i] ==
              if i < |lines| && KeyOf(lines[i]) != Some(key) then lines[i] else key + "=" + value
  {
    SetBySomeExactly(lines, key);
    if i < |lines| {
      ReplacedInPlace(lines, key, value, i);
    }
  }

  /** A saved file is not empty and its last line is complete. */
  lemma SavedFileEndsInNewline(file: Option<string>, key: string, value: string)
    ensures var content := Save(file, key, value); content != "" && content[|content| - 1] == '\n'
  {
    var lines := if file.None? then [] else ScanLines(file.value);
    if SetBySome(lines, key) {
      }
    assert SavedLines(lines, key, value) != [];
  }

  method LineSetsKey(line: string, key: string) returns (r: bool)
    ensures r == Sets(line, key)
  {
    var trimmed := TrimSpace(line);
    r := false;
    if !HasPrefix(trimmed, "#") {
      var idx := IndexOf(trimmed, '=');
      if idx > 0 {
        var lineKey := TrimSpace(trimmed[..idx]);
        r := lineKey == key;
      }
    }
  }

  method ReplaceLines(existing: seq<string>, key: string, value: string) returns (lines: seq<string>, found: bool)
    ensures lines == Replaced(existing, key, value) && found == SetBySome(existing, key)
  {
    lines, found := [], false;
    for n := 0 to |existing|
      invariant lines == Replaced(existing[..n], key, value)
      invariant found == SetBySome(existing[..n], key)
    {
      var line := existing[n];
      ReplacedSnoc(existing[..n], line, key, value);
      SetBySomeSnoc(existing[..n], line, key);
      Border(existing, n);
      var sets := LineSetsKey(line, key);
      assert ReplacedLine(line, key, value) == if sets then Setting(key, value) else line;
      if sets {
        lines := lines + [Setting(key, value)];
        found := true;
      } else {
        lines := lines + [line];
      }
    }
    Whole(existing);
  }

  method SaveEnvVarToFile(file: Option<string>, key: string, value: string) returns (content: string)
    ensures content == Save(file, key, value)
  {
    var existing := if file.None? then [] else ScanLines(file.value);
    var lines, found := ReplaceLines(existing, key, value);
    if !found {
      lines := lines + [Setting(key, value)];
    }
    assert lines == SavedLines(existing, key, value);
    content := Join(lines, '\n');
    if |lines| > 0 && !(content != "" && content[|content| - 1] == '\n') {
      content := content + ['\n'];
    }
  }

  // ---------------------------------------------------------------- reading back what was written

  lemma {:induction false} JoinTerminates(lines: seq<string>)
    requires lines != []
    ensures Join(lines, '\n') + ['\n'] == Terminate(lines)
  {
    if |lines| > 1 {
      JoinTerminates(lines[1..]);
      assert lines[0] + ['\n'] + Join(lines[1..], '\n') + ['\n']
               == lines[0] + ['\n'] + (Join(lines[1..], '\n') + ['\n']);
    }
  }

  lemma {:induction false} JoinEnd(lines: seq<string>)
    requires NewlineFree(lines) && lines != []
    ensures Join(lines, '\n') != "" && Join(lines, '\n')[|Join(lines, '\n')| - 1] == '\n' <==>
              |lines| >= 2 && lines[|lines| - 1] == ""
  {
    if |lines| == 1 {
      assert lines[0] == "" || lines[0][|lines[0]| - 1] in lines[0];
    } else {
      JoinEnd(lines[1..]);
    }
  }

  /** A blank last line is dropped by Render when it is not the only one. */
  function Kept(lines: seq<string>): seq<string> {
    if |lines| >= 2 && lines[|lines| - 1] == "" then lines[..|lines| - 1] else lines
  }

  lemma ScanRendered(lines: seq<string>)
    requires NewlineFree(lines)
    ensures ScanLines(Render(lines)) == DropCRs(Kept(lines))
  {
    if lines != [] {
      JoinTerminates(lines);
      JoinEnd(lines);
      if |lines| >= 2 && lines[|lines| - 1] == "" {
        var init := lines[..|lines| - 1];
        assert lines == init + [""];
        TerminateAppend(init, [""]);
        assert Terminate([""]) == "\n";
        assert Join(lines, '\n') == (Join(lines, '\n') + ['\n'])[..|Join(lines, '\n')|];
        assert Join(lines, '\n') == Terminate(init);
        ScanTerminated(init);
      } else {
        ScanTerminated(lines);
      }
    }
  }

  lemma CarriageReturnIsIrrelevant(env: EnvMap, line: string)
    ensures LoadLine(env, DropCR(line)) == LoadLine(env, line)
  {
    TrimSpaceIgnoresCR(line);
    assert KeyOf(DropCR(line)) == KeyOf(line);
    assert KeyOf(line).Some? ==> ValueOf(DropCR(line)) == ValueOf(line);
  }

  lemma {:induction false} LoadDropCRs(lines: seq<string>, env: EnvMap)
    ensures LoadLines(DropCRs(lines), env) == LoadLines(lines, env)
  {
    if lines != [] {
      var init, last := lines[..|lines| - 1], lines[|lines| - 1];
      LoadDropCRs(init, env);
      assert DropCRs(lines)[..|lines| - 1] == DropCRs(init);
      CarriageReturnIsIrrelevant(LoadLines(init, env), last);
    }
  }

  /** Reading a rendered file gives what its lines set. */
  lemma LoadRendered(lines: seq<string>, env: EnvMap)
    requires NewlineFree(lines)
    ensures LoadLines(ScanLines(Render(lines)), env) == LoadLines(lines, env)
  {
    ScanRendered(lines);
    LoadDropCRs(Kept(lines), env);
  }

  /** A key that can be set: not empty, trimmed, no '=' and no newline in it, not a comment. */
  predicate WellFormedKey(k: string) {
    k != "" && Trimmed(k) && '=' !in k && '\n' !in k && k[0] != '#'
  }

  /** Lines only ever set well-formed keys. */
  lemma KeysAreWellFormed(line: string)
    requires '\n' !in line && KeyOf(line).Some?
    ensures WellFormedKey(KeyOf(line).value)
  {
    var trimmed := TrimSpace(line);
    TrimSpaceTrims(line);
    var i := IndexOf(trimmed, '=');
    var raw := trimmed[..i];
    TrimSpaceTrims(raw);
    assert TrimLeft(raw) == raw;
    TrimRightEnds(raw);
    var key := TrimSpace(raw);
    assert key != "" by {
      TrimRightKeepsFirst(raw);
    }
    assert key[0] == raw[0];
  }

  lemma {:induction false} TrimRightKeepsFirst(s: string)
    requires s != "" && !IsSpace(s[0])
    ensures TrimRight(s) != "" && TrimRight(s)[0] == s[0]
  {
    if IsSpace(s[|s| - 1]) {
      TrimRightKeepsFirst(s[..|s| - 1]);
    }
  }

  lemma {:induction false} LoadedKeysAreWellFormed(lines: seq<string>, env: EnvMap)
    requires NewlineFree(lines) && forall k :: k in env ==> WellFormedKey(k)
    ensures forall k :: k in LoadLines(lines, env) ==> WellFormedKey(k)
  {
    if lines != [] {
      LoadedKeysAreWellFormed(lines[..|lines| - 1], env);
      if KeyOf(lines[|lines| - 1]).Some? {
        KeysAreWellFormed(lines[|lines| - 1]);
      }
    }
  }

  lemma {:induction false} TrimRightOfSuffix(a: string, b: string)
    requires a != "" && !IsSpace(a[|a| - 1])
    ensures TrimRight(a + b) == a + TrimRight(b)
  {
    if b == "" {
      assert a + b == a;
    } else if IsSpace(b[|b| - 1]) {
      assert (a + b)[..|a + b| - 1] == a + b[..|b| - 1];
      TrimRightOfSuffix(a, b[..|b| - 1]);
    }
  }

  lemma {:induction false} TrimLeftThenRight(s: string)
    ensures TrimSpace(TrimRight(s)) == TrimSpace(s)
  {
    if s != "" && IsSpace(s[|s| - 1]) {
      var init, last := s[..|s| - 1], s[|s| - 1];
      TrimLeftThenRight(init);
      TrimSpaceSnoc(init, last);
      assert init + [last] == s;
      assert TrimRight(s) == TrimRight(init);
    }
  }

  /** The line written for a well-formed key sets that key to the trimmed, unquoted value. */
  lemma SettingIsReadBack(k: string, v: string)
    requires WellFormedKey(k)
    ensures KeyOf(Setting(k, v)) == Some(k) && ValueOf(Setting(k, v)) == Unquote(TrimSpace(v))
  {
    var head := k + ['='];
    assert Setting(k, v) == head + v;
    assert TrimLeft(head + v) == head + v;
    TrimRightOfSuffix(head, v);
    var trimmed := TrimSpace(Setting(k, v));
    assert trimmed == k + ['='] + TrimRight(v);
    IndexOfFirst(k, '=', TrimRight(v));
    assert trimmed[..|k|] == k && trimmed[|k| + 1..] == TrimRight(v);
    TrimmedIsFixed(k);
    TrimLeftThenRight(v);
    assert trimmed[0] == k[0];
  }

  lemma {:induction false} LoadOnTop(lines: seq<string>, env: EnvMap)
    ensures LoadLines(lines, env) == env + LoadLines(lines, map[])
  {
    if lines != [] {
      LoadOnTop(lines[..|lines| - 1], env);
    }
  }

  /** LoadEnvMap: the global file first, the project file on top of it. */
  method LoadEnvMap(global: Option<string>, project: Option<string>) returns (env: EnvMap)
    ensures env == Load(global, map[]) + Load(project, map[])
  {
    env := LoadEnvFileInto(global, map[]);
    env := LoadEnvFileInto(project, env);
    if project.Some? {
      LoadOnTop(ScanLines(project.value), Load(global, map[]));
    }
  }

  /** Trimming and unquoting leave a text alone exactly when it is trimmed and not in quotes. */
  lemma UnquotingKeeps(v: string)
    ensures Unquote(TrimSpace(v)) == v <==> Trimmed(v) && !QuotedBy(v, '"') && !QuotedBy(v, '\'')
  {
    TrimSpaceTrims(v);
    if Trimmed(v) {
      TrimmedIsFixed(v);
    } else if TrimSpace(v) == v {
      assert false;
    } else {
      var t := TrimSpace(v);
      assert |Unquote(t)| <= |t| <= |v|;
      if |t| == |v| {
        SameLengthTrim(v);
        assert false;
      }
    }
  }

  lemma SameLengthTrim(v: string)
    requires |TrimSpace(v)| == |v|
    ensures TrimSpace(v) == v
  {
    TrimLeftStarts(v);
    TrimRightEnds(TrimLeft(v));
    if v != "" && IsSpace(v[0]) {
      TrimLeftStarts(v[1..]);
    }
  }
}
