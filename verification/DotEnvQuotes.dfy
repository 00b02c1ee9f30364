/** Quoted values of the `.env` reader (settings/envmap.go): what it makes of them, and exactly when it takes back
    the escapes of a text. */
module DotEnvQuotes {
  import opened Text
  import opened DotEnv
  import opened DotEnvLaw

  /** Between single quotes a text stands for itself. */
  lemma SingleQuotesAreLiteral(s: string)
    ensures Unquote("'" + s + "'") == s
  {
    var v := "'" + s + "'";
    assert v[0] == '\'' && v[|v| - 1] == '\'' && v[1..|v| - 1] == s;
  }

  /** Double quotes are taken off a text, and its escapes are processed. */
  lemma DoubleQuotesEscape(s: string)
    ensures Unquote("\"" + s + "\"") == Escaped(s)
  {
    var v := "\"" + s + "\"";
    assert v[0] == '"' && v[|v| - 1] == '"' && v[1..|v| - 1] == s;
  }

  // ---------------------------------------------------------------- escaping and back

  /** The escape of one character: of newline, tab and backslash. */
  function Code(c: char, newline: bool, tab: bool): string {
    if c == '\\' then "\\\\"
    else if c == '\n' && newline then "\\n"
    else if c == '\t' && tab then "\\t"
    else [c]
  }

  /** A text with its backslashes escaped, and its newlines and tabs if they are to be. */
  function Escape(v: string, newline: bool, tab: bool): string {
    if v == "" then "" else Code(v[0], newline, tab) + Escape(v[1..], newline, tab)
  }

  /** How often a backslash stands right before this letter. */
  function Pairs(v: string, letter: char): nat {
    if |v| < 2 then 0
    else if v[0] == '\\' && v[1] == letter then 1 + Pairs(v[2..], letter)
    else Pairs(v[1..], letter)
  }

  predicate PairAt(v: string, letter: char, i: nat) {
    i + 1 < |v| && v[i] == '\\' && v[i + 1] == letter
  }

  lemma {:induction false} PairsExactly(v: string, letter: char)
    requires letter != '\\'
    ensures Pairs(v, letter) > 0 <==> exists i: nat :: PairAt(v, letter, i)
  {
    if |v| >= 2 {
      if v[0] == '\\' && v[1] == letter {
        assert PairAt(v, letter, 0);
      } else {
        PairsExactly(v[1..], letter);
        assert forall i: nat :: PairAt(v[1..], letter, i) ==> PairAt(v, letter, i + 1);
        assert forall i: nat :: i > 0 && PairAt(v, letter, i) ==> PairAt(v[1..], letter, i - 1);
      }
    }
  }

  lemma ReplaceOther(c: char, rest: string, a: char, b: char, to: char)
    requires c != a || rest == "" || rest[0] != b
    ensures ReplacePair([c] + rest, a, b, to) == [c] + ReplacePair(rest, a, b, to)
  {
    assert ([c] + rest)[1..] == rest;
  }

  lemma ReplaceHere(rest: string, a: char, b: char, to: char)
    ensures ReplacePair([a] + ([b] + rest), a, b, to) == [to] + ReplacePair(rest, a, b, to)
  {
    assert ([a] + ([b] + rest))[2..] == rest;
  }

  /** The first character of what has been escaped. */
  lemma EscapeStarts(v: string, newline: bool, tab: bool)
    requires v != ""
    ensures Escape(v, newline, tab) != ""
    ensures Escape(v, newline, tab)[0] == if Code(v[0], newline, tab) == [v[0]] then v[0] else '\\'
  {
  }

  lemma CodedTwo(c: char, d: char, rest: string, a: char, b: char, to: char)
    requires d != a && (c != a || d != b)
    ensures ReplacePair([c] + ([d] + rest), a, b, to) == [c] + ([d] + ReplacePair(rest, a, b, to))
  {
    ReplaceOther(c, [d] + rest, a, b, to);
    ReplaceOther(d, rest, a, b, to);
  }

  /** A backslash before something that is neither the letter nor another backslash stays. */
  lemma BackslashesStay(rest: string, letter: char, to: char)
    requires letter != '\\' && (rest == "" || rest[0] != letter)
    ensures ReplacePair(['\\'] + (['\\'] + rest), '\\', letter, to)
         == ['\\'] + (['\\'] + ReplacePair(rest, '\\', letter, to))
  {
    ReplaceOther('\\', ['\\'] + rest, '\\', letter, to);
    ReplaceOther('\\', rest, '\\', letter, to);
  }

  lemma CodeIsTwo(c: char, rest: string, newline: bool, tab: bool)
    ensures Code(c, newline, tab) + rest ==
            if c == '\\' then ['\\'] + (['\\'] + rest)
            else if c == '\n' && newline then ['\\'] + (['n'] + rest)
            else if c == '\t' && tab then ['\\'] + (['t'] + rest)
            else [c] + rest
  {
  }

  lemma PairsOfRest(v: string, letter: char)
    requires v != "" && Pairs(v, letter) == 0
    ensures Pairs(v[1..], letter) == 0
    ensures v[0] == '\\' ==> v[1..] == "" || v[1..][0] != letter
  {
  }

  /** The first replacement takes the newlines back, unless a backslash stands before an n. */
  lemma {:induction false} NewlinesComeBack(v: string)
    requires Pairs(v, 'n') == 0
    ensures ReplacePair(Escape(v, true, true), '\\', 'n', '\n') == Escape(v, false, true)
  {
    if v != "" {
      var c, rest := v[0], v[1..];
      var e := Escape(rest, true, true);
      PairsOfRest(v, 'n');
      NewlinesComeBack(rest);
      CodeIsTwo(c, e, true, true);
      CodeIsTwo(c, Escape(rest, false, true), false, true);
      if c == '\\' {
        if rest != "" {
          EscapeStarts(rest, true, true);
        }
        BackslashesStay(e, 'n', '\n');
      } else if c == '\n' {
        ReplaceHere(e, '\\', 'n', '\n');
      } else if c == '\t' {
        CodedTwo('\\', 't', e, '\\', 'n', '\n');
      } else {
        ReplaceOther(c, e, '\\', 'n', '\n');
      }
    }
  }

  /** The second one takes the tabs back, unless a backslash stands before a t. */
  lemma {:induction false} TabsComeBack(v: string)
    requires Pairs(v, 't') == 0
    ensures ReplacePair(Escape(v, false, true), '\\', 't', '\t') == Escape(v, false, false)
  {
    if v != "" {
      var c, rest := v[0], v[1..];
      var e := Escape(rest, false, true);
      PairsOfRest(v, 't');
      TabsComeBack(rest);
      CodeIsTwo(c, e, false, true);
      CodeIsTwo(c, Escape(rest, false, false), false, false);
      if c == '\\' {
        if rest != "" {
          EscapeStarts(rest, false, true);
        }
        BackslashesStay(e, 't', '\t');
      } else if c == '\t' {
        ReplaceHere(e, '\\', 't', '\t');
      } else {
        ReplaceOther(c, e, '\\', 't', '\t');
      }
    }
  }

  /** The third one takes the backslashes back. */
  lemma {:induction false} BackslashesComeBack(v: string)
    ensures ReplacePair(Escape(v, false, false), '\\', '\\', '\\') == v
  {
    if v != "" {
      var c, rest := v[0], v[1..];
      var e := Escape(rest, false, false);
      BackslashesComeBack(rest);
      CodeIsTwo(c, e, false, false);
      assert [c] + rest == v;
      if c == '\\' {
        ReplaceHere(e, '\\', '\\', '\\');
      } else {
        ReplaceOther(c, e, '\\', '\\', '\\');
      }
    }
  }

  lemma CountCons(c: char, s: string, d: char)
    ensures Count([c] + s, d) == (if c == d then 1 else 0) + Count(s, d)
  {
    assert ([c] + s)[1..] == s;
  }

  lemma CountTwoCons(b: char, c: char, s: string, d: char)
    ensures Count([b] + ([c] + s), d) == (if b == d then 1 else 0) + (if c == d then 1 else 0) + Count(s, d)
  {
    CountCons(b, [c] + s, d);
    CountCons(c, s, d);
  }

  lemma PairStarts(v: string, letter: char, newline: bool, tab: bool)
    requires |v| >= 2 && v[0] == '\\' && v[1] == letter
    requires letter == 'n' || letter == 't'
    ensures Escape(v, newline, tab) == ['\\'] + (['\\'] + ([letter] + Escape(v[2..], newline, tab)))
  {
    assert v[1..][1..] == v[2..];
    CodeIsTwo(v[0], Escape(v[1..], newline, tab), newline, tab);
    CodeIsTwo(v[1], Escape(v[2..], newline, tab), newline, tab);
  }

  lemma PairTurns(v: string, letter: char, to: char, newline: bool, tab: bool)
    requires |v| >= 2 && v[0] == '\\' && v[1] == letter
    requires (letter == 'n' && to == '\n') || (letter == 't' && to == '\t')
    ensures Count(ReplacePair(Escape(v, newline, tab), '\\', letter, to), to) ==
            1 + Count(ReplacePair(Escape(v[2..], newline, tab), '\\', letter, to), to)
    ensures Count(v, to) == Count(v[2..], to)
  {
    var e := Escape(v[2..], newline, tab);
    PairStarts(v, letter, newline, tab);
    ReplaceOther('\\', ['\\'] + ([letter] + e), '\\', letter, to);
    ReplaceHere(e, '\\', letter, to);
    CountTwoCons('\\', to, ReplacePair(e, '\\', letter, to), to);
    CountTwoCons(v[0], v[1], v[2..], to);
    assert v == [v[0]] + ([v[1]] + v[2..]);
  }

  lemma NoPairStep(v: string, newline: bool, tab: bool, letter: char, to: char)
    requires v != "" && !(v[0] == '\\' && |v| >= 2 && v[1] == letter)
    requires (letter == 'n' && to == '\n' && newline && tab) || (letter == 't' && to == '\t' && !newline && tab)
    ensures Count(ReplacePair(Escape(v, newline, tab), '\\', letter, to), to) ==
            (if v[0] == to then 1 else 0) + Count(ReplacePair(Escape(v[1..], newline, tab), '\\', letter, to), to)
  {
    var c, rest := v[0], v[1..];
    var e := Escape(rest, newline, tab);
    var r := ReplacePair(e, '\\', letter, to);
    CodeIsTwo(c, e, newline, tab);
    if c == '\\' {
      if rest != "" {
        EscapeStarts(rest, newline, tab);
      }
      BackslashesStay(e, letter, to);
      CountTwoCons('\\', '\\', r, to);
    } else if c == to {
      ReplaceHere(e, '\\', letter, to);
      CountCons(to, r, to);
    } else if c == '\t' {
      CodedTwo('\\', 't', e, '\\', 'n', '\n');
      CountTwoCons('\\', 't', r, to);
    } else {
      ReplaceOther(c, e, '\\', letter, to);
      CountCons(c, r, to);
    }
  }

  /** Each backslash before the letter turns into one more newline, or tab. */
  lemma {:induction false} PairsTurn(v: string, newline: bool, tab: bool, letter: char, to: char)
    requires (letter == 'n' && to == '\n' && newline && tab) || (letter == 't' && to == '\t' && !newline && tab)
    ensures Count(ReplacePair(Escape(v, newline, tab), '\\', letter, to), to) == Count(v, to) + Pairs(v, letter)
  {
    if v != "" {
      if |v| >= 2 && v[0] == '\\' && v[1] == letter {
        PairsTurn(v[2..], newline, tab, letter, to);
        PairTurns(v, letter, to, newline, tab);
      } else {
        PairsTurn(v[1..], newline, tab, letter, to);
        NoPairStep(v, newline, tab, letter, to);
        CountCons(v[0], v[1..], to);
        assert v == [v[0]] + v[1..];
      }
    }
  }

  /** A text written with its backslashes, newlines and tabs escaped, between double quotes. */
  function Quote(v: string): string {
    "\"" + Escape(v, true, true) + "\""
  }

  /** The reader takes back a quoted text if and only if the text has no backslash right before an n or a t: the
      replacements are made one after the other, so an escaped backslash and the letter after it read as an
      escape. */
  lemma QuotingIsTakenBackExactly(v: string)
    ensures Unquote(Quote(v)) == v <==> forall i: nat :: !PairAt(v, 'n', i) && !PairAt(v, 't', i)
  {
    DoubleQuotesEscape(Escape(v, true, true));
    PairsExactly(v, 'n');
    PairsExactly(v, 't');
    PairsTurn(v, true, true, 'n', '\n');
    var first := ReplacePair(Escape(v, true, true), '\\', 'n', '\n');
    var second := ReplacePair(first, '\\', 't', '\t');
    CountReplaced(first, '\\', 't', '\t', '\n');
    CountReplaced(second, '\\', '\\', '\\', '\n');
    if Pairs(v, 'n') == 0 {
      NewlinesComeBack(v);
      PairsTurn(v, false, true, 't', '\t');
      CountReplaced(second, '\\', '\\', '\\', '\t');
      if Pairs(v, 't') == 0 {
        TabsComeBack(v);
        BackslashesComeBack(v);
      }
    }
  }
}
