/** Slugs and branch names (internal/conductor/conductor_job_helpers.go). Lower-casing of a character is a
    parameter. */
module Slug {
  import opened Common
  import opened Text

  // ---------------------------------------------------------------- replacing

  /** strings.ReplaceAll: the occurrences of `what` from left to right, without overlaps. */
  function ReplaceAll(s: string, what: string, with: string): string
    requires what != ""
  {
    if s == "" then ""
    else if HasPrefix(s, what) then with + ReplaceAll(s[|what|..], what, with)
    else [s[0]] + ReplaceAll(s[1..], what, with)
  }

  predicate DoubleAt(s: string, i: nat) {
    i + 1 < |s| && s[i] == '-' && s[i + 1] == '-'
  }

  ghost predicate HasDouble(s: string) {
    exists i: nat :: DoubleAt(s, i)
  }

  lemma PrefixIsDouble(s: string)
    ensures HasPrefix(s, "--") <==> DoubleAt(s, 0)
  {
    if DoubleAt(s, 0) {
      assert s[..2] == "--";
    }
  }

  lemma {:induction false} ContainsIsDouble(s: string)
    ensures Contains(s, "--") <==> HasDouble(s)
  {
    PrefixIsDouble(s);
    if s != "" {
      ContainsIsDouble(s[1..]);
      assert forall i: nat :: DoubleAt(s[1..], i) ==> DoubleAt(s, i + 1);
      assert forall i: nat :: i > 0 && DoubleAt(s, i) ==> DoubleAt(s[1..], i - 1);
    }
  }

  // ---------------------------------------------------------------- collapsing runs of hyphens

  /** Each maximal run of hyphens becomes one hyphen: a hyphen before another one goes. */
  function Collapse(s: string): string {
    if s == "" then ""
    else if DoubleAt(s, 0) then Collapse(s[1..])
    else [s[0]] + Collapse(s[1..])
  }

  lemma {:induction false} CollapseFirst(s: string)
    ensures s != "" ==> Collapse(s) != "" && Collapse(s)[0] == s[0]
  {
    if DoubleAt(s, 0) {
      CollapseFirst(s[1..]);
    }
  }

  lemma {:induction false} CollapseLast(s: string)
    ensures s != "" ==> Collapse(s) != "" && Collapse(s)[|Collapse(s)| - 1] == s[|s| - 1]
  {
    if s != "" {
      CollapseLast(s[1..]);
    }
  }

  lemma {:induction false} CollapseHasNoDouble(s: string)
    ensures !HasDouble(Collapse(s))
  {
    if s != "" {
      CollapseHasNoDouble(s[1..]);
      CollapseFirst(s[1..]);
      if !DoubleAt(s, 0) {
        ConsDouble(s[0], Collapse(s[1..]));
      }
    }
  }

  lemma ConsDouble(c: char, s: string)
    ensures HasDouble([c] + s) <==> HasDouble(s) || (c == '-' && s != "" && s[0] == '-')
  {
    var t := [c] + s;
    assert forall i: nat :: DoubleAt(s, i) ==> DoubleAt(t, i + 1);
    assert forall i: nat :: i > 0 && DoubleAt(t, i) ==> DoubleAt(s, i - 1);
    assert DoubleAt(t, 0) <==> c == '-' && s != "" && s[0] == '-';
  }

  lemma {:induction false} CollapseFixes(s: string)
    ensures Collapse(s) == s <==> !HasDouble(s)
  {
    CollapseHasNoDouble(s);
    if s != "" && !HasDouble(s) {
      assert [s[0]] + s[1..] == s;
      ConsDouble(s[0], s[1..]);
      CollapseFixes(s[1..]);
    }
  }

  /** Replacing some pairs does not change what the runs collapse to. */
  lemma {:induction false} ReplacingKeepsCollapse(s: string)
    ensures Collapse(ReplaceAll(s, "--", "-")) == Collapse(s)
    ensures s != "" ==> ReplaceAll(s, "--", "-") != "" && ReplaceAll(s, "--", "-")[0] == s[0]
  {
    if s != "" {
      PrefixIsDouble(s);
      if DoubleAt(s, 0) {
        var rest := ReplaceAll(s[2..], "--", "-");
        ReplacingKeepsCollapse(s[2..]);
        assert s[1..][1..] == s[2..];
        CollapseCons('-', rest, s[2..]);
        assert Collapse(s) == Collapse(s[1..]) && s[1..] == "-" + s[2..];
      } else {
        ReplacingKeepsCollapse(s[1..]);
        CollapseCons(s[0], ReplaceAll(s[1..], "--", "-"), s[1..]);
        assert s == [s[0]] + s[1..];
      }
    }
  }

  lemma CollapseCons(c: char, a: string, b: string)
    requires Collapse(a) == Collapse(b) && (b != "" ==> a != "" && a[0] == b[0]) && (b == "" ==> a == "")
    ensures Collapse([c] + a) == Collapse([c] + b)
  {
    assert ([c] + a)[1..] == a && ([c] + b)[1..] == b;
    assert DoubleAt([c] + a, 0) <==> DoubleAt([c] + b, 0);
  }

  lemma {:induction false} ReplacingShrinks(s: string)
    ensures |ReplaceAll(s, "--", "-")| <= |s|
    ensures HasDouble(s) ==> |ReplaceAll(s, "--", "-")| < |s|
  {
    if s != "" {
      PrefixIsDouble(s);
      if DoubleAt(s, 0) {
        ReplacingShrinks(s[2..]);
      } else {
        ReplacingShrinks(s[1..]);
        assert s == [s[0]] + s[1..];
        ConsDouble(s[0], s[1..]);
      }
    }
  }

  /** Replacing pairs until there are none collapses every run. */
  method CollapseHyphens(s: string) returns (r: string)
    ensures r == Collapse(s) && !HasDouble(r)
  {
    r := s;
    while Contains(r, "--")
      invariant Collapse(r) == Collapse(s)
      decreases |r|
    {
      ContainsIsDouble(r);
      ReplacingShrinks(r);
      ReplacingKeepsCollapse(r);
      r := ReplaceAll(r, "--", "-");
    }
    ContainsIsDouble(r);
    CollapseFixes(r);
  }

  // ---------------------------------------------------------------- trimming hyphens

  function TrimRightHyphens(s: string): string {
    if s != "" && s[|s| - 1] == '-' then TrimRightHyphens(s[..|s| - 1]) else s
  }

  function TrimHyphens(s: string): string {
    if s != "" && s[0] == '-' then TrimHyphens(s[1..]) else TrimRightHyphens(s)
  }

  /** A part of a text has a double hyphen only if the text has. */
  lemma PartHasNoDouble(s: string, i: nat, j: nat)
    requires i <= j <= |s| && !HasDouble(s)
    ensures !HasDouble(s[i..j])
  {
    forall k: nat | DoubleAt(s[i..j], k) ensures DoubleAt(s, i + k) {
    }
  }

  lemma {:induction false} TrimRightIsPrefix(s: string) returns (n: nat)
    ensures n <= |s| && TrimRightHyphens(s) == s[..n] && (n > 0 ==> s[n - 1] != '-')
    ensures forall i :: n <= i < |s| ==> s[i] == '-'
  {
    n := |s|;
    if s != "" && s[|s| - 1] == '-' {
      n := TrimRightIsPrefix(s[..|s| - 1]);
    }
  }

  lemma {:induction false} TrimIsPart(s: string) returns (i: nat, j: nat)
    ensures i <= j <= |s| && TrimHyphens(s) == s[i..j] && (i < j ==> s[i] != '-' && s[j - 1] != '-')
    ensures forall k :: 0 <= k < i || j <= k < |s| ==> s[k] == '-'
  {
    if s != "" && s[0] == '-' {
      i, j := TrimIsPart(s[1..]);
      assert s[1..][i..j] == s[i + 1..j + 1];
      i, j := i + 1, j + 1;
    } else {
      j := TrimRightIsPrefix(s);
      i := 0;
    }
  }

  // ---------------------------------------------------------------- slugs

  predicate IsAlnum(c: char) {
    'a' <= c <= 'z' || '0' <= c <= '9'
  }

  predicate IsSlugChar(c: char) {
    IsAlnum(c) || c == '-'
  }

  /** Runs of letters and digits joined by single hyphens, at most 50 characters in all. */
  ghost predicate IsSlug(s: string) {
    && |s| <= 50 && (forall i :: 0 <= i < |s| ==> IsSlugChar(s[i]))
    && !HasDouble(s) && (s != "" ==> s[0] != '-' && s[|s| - 1] != '-')
  }

  /** What becomes of one character. */
  function CleanChar(lower: char -> char, c: char): string {
    var l := lower(c);
    if l == ' ' || l == '_' then "-" else if IsSlugChar(l) then [l] else ""
  }

  function Clean(lower: char -> char, s: string): string {
    if s == "" then "" else Clean(lower, s[..|s| - 1]) + CleanChar(lower, s[|s| - 1])
  }

  function Cut(s: string): string {
    if |s| > 50 then TrimRightHyphens(s[..50]) else s
  }

  function Slugified(lower: char -> char, s: string): string {
    Cut(TrimHyphens(Collapse(Clean(lower, s))))
  }

  ghost predicate Lowers(lower: char -> char) {
    forall c :: IsSlugChar(c) ==> lower(c) == c
  }

  lemma {:induction false} CleanIsSlugChars(lower: char -> char, s: string)
    ensures forall i :: 0 <= i < |Clean(lower, s)| ==> IsSlugChar(Clean(lower, s)[i])
  {
    if s != "" {
      CleanIsSlugChars(lower, s[..|s| - 1]);
    }
  }

  lemma {:induction false} CollapseIsSlugChars(s: string)
    requires forall i :: 0 <= i < |s| ==> IsSlugChar(s[i])
    ensures forall i :: 0 <= i < |Collapse(s)| ==> IsSlugChar(Collapse(s)[i])
  {
    if s != "" {
      CollapseIsSlugChars(s[1..]);
    }
  }

  lemma CutIsSlug(s: string)
    requires (forall i :: 0 <= i < |s| ==> IsSlugChar(s[i])) && !HasDouble(s)
    requires s != "" ==> s[0] != '-' && s[|s| - 1] != '-'
    ensures IsSlug(Cut(s))
  {
    if |s| > 50 {
      var n := TrimRightIsPrefix(s[..50]);
      assert s[..50][..n] == s[0..n];
      PartHasNoDouble(s, 0, n);
    }
  }

  /** Every title gives a slug. */
  lemma EveryTitleGivesASlug(lower: char -> char, s: string)
    ensures IsSlug(Slugified(lower, s))
  {
    var t := Collapse(Clean(lower, s));
    CleanIsSlugChars(lower, s);
    CollapseIsSlugChars(Clean(lower, s));
    CollapseHasNoDouble(Clean(lower, s));
    var i, j := TrimIsPart(t);
    PartHasNoDouble(t, i, j);
    CutIsSlug(t[i..j]);
  }

  predicate AllSlugChars(s: string) {
    forall i :: 0 <= i < |s| ==> IsSlugChar(s[i])
  }

  lemma CleanCharFixes(lower: char -> char, c: char)
    requires Lowers(lower) && IsSlugChar(c)
    ensures CleanChar(lower, c) == [c]
  {
  }

  lemma {:induction false} CleanFixes(lower: char -> char, s: string)
    requires Lowers(lower) && AllSlugChars(s)
    ensures Clean(lower, s) == s
  {
    if s != "" {
      var init, last := s[..|s| - 1], s[|s| - 1];
      assert s == init + [last];
      CleanFixes(lower, init);
      CleanCharFixes(lower, last);
    }
  }

  /** The fixed points are exactly the slugs. */
  lemma FixedExactlyWhenASlug(lower: char -> char, s: string)
    requires Lowers(lower)
    ensures Slugified(lower, s) == s <==> IsSlug(s)
  {
    EveryTitleGivesASlug(lower, s);
    if IsSlug(s) {
      CleanFixes(lower, s);
      CollapseFixes(s);
    }
  }

  lemma SlugifiedIsIdempotent(lower: char -> char, s: string)
    requires Lowers(lower)
    ensures Slugified(lower, Slugified(lower, s)) == Slugified(lower, s)
  {
    EveryTitleGivesASlug(lower, s);
    FixedExactlyWhenASlug(lower, Slugified(lower, s));
  }

  // ---------------------------------------------------------------- what a slug says

  function Letters(s: string): string {
    if s == "" then "" else Letters(s[..|s| - 1]) + if IsAlnum(s[|s| - 1]) then [s[|s| - 1]] else ""
  }

  function Lowered(lower: char -> char, s: string): string {
    seq(|s|, i requires 0 <= i < |s| => lower(s[i]))
  }

  lemma {:induction false} LettersAppend(a: string, b: string)
    ensures Letters(a + b) == Letters(a) + Letters(b)
  {
    if b == "" {
      assert a + b == a;
    } else {
      assert (a + b)[..|a + b| - 1] == a + b[..|b| - 1];
      LettersAppend(a, b[..|b| - 1]);
    }
  }

  lemma {:induction false} CleanKeepsLetters(lower: char -> char, s: string)
    ensures Letters(Clean(lower, s)) == Letters(Lowered(lower, s))
  {
    if s != "" {
      var n := |s| - 1;
      CleanKeepsLetters(lower, s[..n]);
      LettersAppend(Clean(lower, s[..n]), CleanChar(lower, s[n]));
      assert Lowered(lower, s)[..n] == Lowered(lower, s[..n]);
      LettersOfOne(CleanChar(lower, s[n]));
    }
  }

  lemma LettersOfOne(s: string)
    requires |s| <= 1
    ensures Letters(s) == if s != "" && IsAlnum(s[0]) then s else ""
  {
    if s != "" {
      assert s[..0] == "";
    }
  }

  lemma {:induction false} CollapseKeepsLetters(s: string)
    ensures Letters(Collapse(s)) == Letters(s)
  {
    if s != "" {
      CollapseKeepsLetters(s[1..]);
      LettersAppend([s[0]], s[1..]);
      LettersAppend([s[0]], Collapse(s[1..]));
      LettersOfOne([s[0]]);
      assert s == [s[0]] + s[1..];
    }
  }

  lemma {:induction false} NoLettersInHyphens(s: string)
    requires forall i :: 0 <= i < |s| ==> s[i] == '-'
    ensures Letters(s) == ""
  {
    if s != "" {
      NoLettersInHyphens(s[..|s| - 1]);
    }
  }

  lemma TrimKeepsLetters(s: string)
    ensures Letters(TrimHyphens(s)) == Letters(s)
    ensures Letters(TrimRightHyphens(s)) == Letters(s)
  {
    var i, j := TrimIsPart(s);
    assert s == s[..i] + s[i..j] + s[j..];
    LettersAppend(s[..i] + s[i..j], s[j..]);
    LettersAppend(s[..i], s[i..j]);
    NoLettersInHyphens(s[..i]);
    NoLettersInHyphens(s[j..]);
    var n := TrimRightIsPrefix(s);
    assert s == s[..n] + s[n..];
    LettersAppend(s[..n], s[n..]);
    NoLettersInHyphens(s[n..]);
  }

  /** A slug has the letters and digits of the lower-cased title in order: all of them, or the first ones
      when the 50 characters cut it. */
  lemma SlugKeepsTheLetters(lower: char -> char, s: string)
    ensures Letters(Slugified(lower, s)) <= Letters(Lowered(lower, s))
    ensures |TrimHyphens(Collapse(Clean(lower, s)))| <= 50 ==>
              Letters(Slugified(lower, s)) == Letters(Lowered(lower, s))
  {
    var t := TrimHyphens(Collapse(Clean(lower, s)));
    CleanKeepsLetters(lower, s);
    CollapseKeepsLetters(Clean(lower, s));
    TrimKeepsLetters(Collapse(Clean(lower, s)));
    if |t| > 50 {
      TrimKeepsLetters(t[..50]);
      assert t == t[..50] + t[50..];
      LettersAppend(t[..50], t[50..]);
    }
  }

  // ---------------------------------------------------------------- slugify

  lemma {:induction false} ReplaceOne(s: string, c: char, d: char)
    ensures |ReplaceAll(s, [c], [d])| == |s|
    ensures forall i :: 0 <= i < |s| ==> ReplaceAll(s, [c], [d])[i] == if s[i] == c then d else s[i]
  {
    if s != "" {
      ReplaceOne(s[1..], c, d);
      assert HasPrefix(s, [c]) <==> s[0] == c;
    }
  }

  method Slugify(lower: char -> char, title: string) returns (slug: string)
    ensures slug == Slugified(lower, title)
    ensures IsSlug(slug)
  {
    var s := Lowered(lower, title);
    ReplaceOne(s, ' ', '-');
    s := ReplaceAll(s, " ", "-");
    ReplaceOne(s, '_', '-');
    s := ReplaceAll(s, "_", "-");
    var result := "";
    for i := 0 to |s|
      invariant result == Clean(lower, title[..i])
    {
      assert title[..i + 1][..i] == title[..i];
      if IsSlugChar(s[i]) {
        result := result + [s[i]];
      }
    }
    assert title[..|s|] == title;
    slug := CollapseHyphens(result);
    slug := TrimHyphens(slug);
    if |slug| > 50 {
      slug := TrimRightHyphens(slug[..50]);
    }
    EveryTitleGivesASlug(lower, title);
  }

  // ---------------------------------------------------------------- branch names

  const DefaultPattern := "feature/{key}--{slug}"

  function Interpolated(pattern: string, key: string, slug: string, taskType: string): string {
    var p := if pattern == "" then DefaultPattern else pattern;
    var q := if key == "" then ReplaceAll(ReplaceAll(p, "{key}--", ""), "{key}-", "") else p;
    ReplaceAll(ReplaceAll(ReplaceAll(q, "{key}", key), "{slug}", slug), "{type}", taskType)
  }

  /** Placeholders are filled in one after the other. */
  method Interpolate(pattern: string, key: string, slug: string, taskType: string) returns (result: string)
    ensures result == Interpolated(pattern, key, slug, taskType)
  {
    result := if pattern == "" then DefaultPattern else pattern;
    if key == "" {
      result := ReplaceAll(result, "{key}--", "");
      result := ReplaceAll(result, "{key}-", "");
    }
    result := ReplaceAll(result, "{key}", key);
    result := ReplaceAll(result, "{slug}", slug);
    result := ReplaceAll(result, "{type}", taskType);
  }

  lemma TrimmedHasNoDouble(s: string)
    requires !HasDouble(s)
    ensures var r := TrimRightHyphens(s); !HasDouble(r) && (r != "" ==> r[|r| - 1] != '-')
  {
    var n := TrimRightIsPrefix(s);
    PartHasNoDouble(s, 0, n);
    assert s[0..n] == s[..n];
  }

  /** Runs of hyphens collapsed, and none at the end. */
  method TidyHyphens(s: string) returns (r: string)
    ensures r == TrimRightHyphens(Collapse(s)) && Letters(r) == Letters(s)
    ensures !HasDouble(r) && (r != "" ==> r[|r| - 1] != '-')
  {
    r := CollapseHyphens(s);
    CollapseKeepsLetters(s);
    TrimKeepsLetters(r);
    TrimmedHasNoDouble(r);
    r := TrimRightHyphens(r);
  }

  /** Whatever the pattern, the key and the title: the interpolated pattern with its hyphen runs collapsed and
      its trailing hyphens gone. */
  method GenerateBranchName(lower: char -> char, pattern: string, id: string, externalId: string, title: string,
                            source: Option<string>)
    returns (result: string)
    ensures !HasDouble(result) && (result != "" ==> result[|result| - 1] != '-')
    ensures var whole := Interpolated(pattern, if externalId != "" then externalId else id,
                                      Slugified(lower, title), if source.Some? then source.value else "local");
            && result == TrimRightHyphens(Collapse(whole))
            && Letters(result) == Letters(whole)
  {
    var key := if externalId != "" then externalId else id;
    var slug := Slugify(lower, title);
    var taskType := "local";
    if source.Some? {
      taskType := source.value;
    }
    var whole := Interpolate(pattern, key, slug, taskType);
    result := TidyHyphens(whole);
  }
}
