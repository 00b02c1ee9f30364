/** What slugs and branch names are made of: which characters of a title stay, what joins words, how a long slug is
    cut, and what each placeholder of a branch pattern is replaced by. */
module SlugLaws {
  import opened Common
  import opened Text
  import opened Slug

  // ---------------------------------------------------------------- the characters of a title

  lemma {:induction false} CleanAppend(lower: char -> char, a: string, b: string)
    ensures Clean(lower, a + b) == Clean(lower, a) + Clean(lower, b)
  {
    if b == "" {
      assert a + b == a;
    } else {
      var init, last := b[..|b| - 1], b[|b| - 1];
      CleanAppend(lower, a, init);
      CleanSnoc(lower, a + init, last);
      CleanSnoc(lower, init, last);
      LastOne(b);
      Regroup(a, init, [last]);
      Regroup(Clean(lower, a), Clean(lower, init), CleanChar(lower, last));
    }
  }

  lemma CleanSnoc(lower: char -> char, s: string, c: char)
    ensures Clean(lower, s + [c]) == Clean(lower, s) + CleanChar(lower, c)
  {
    assert (s + [c])[..|s|] == s;
  }

  lemma CleanOne(lower: char -> char, c: char)
    ensures Clean(lower, [c]) == CleanChar(lower, c)
  {
    assert [c][..0] == "";
  }

  /** Two slugs with a space, an underscore or a hyphen between them are joined by one hyphen. */
  lemma WordsAreJoined(lower: char -> char, a: string, sep: char, b: string)
    requires Lowers(lower) && IsSlug(a) && IsSlug(b) && a != "" && b != "" && |a| + 1 + |b| <= 50
    requires lower(sep) == ' ' || lower(sep) == '_' || lower(sep) == '-'
    ensures Slugified(lower, a + [sep] + b) == a + "-" + b
  {
    CleanFixes(lower, a);
    CleanFixes(lower, b);
    CleanedWords(lower, a, sep, b);
    JoinedIsSlug(a, b);
    CleanFixes(lower, a + "-" + b);
    FixedExactlyWhenASlug(lower, a + "-" + b);
  }

  lemma CleanedWords(lower: char -> char, a: string, sep: char, b: string)
    requires Clean(lower, a) == a && Clean(lower, b) == b
    requires lower(sep) == ' ' || lower(sep) == '_' || lower(sep) == '-'
    ensures Clean(lower, a + [sep] + b) == a + "-" + b
  {
    CleanAppend(lower, a + [sep], b);
    CleanAppend(lower, a, [sep]);
    CleanSeparator(lower, sep);
  }

  lemma CleanSeparator(lower: char -> char, sep: char)
    requires lower(sep) == ' ' || lower(sep) == '_' || lower(sep) == '-'
    ensures Clean(lower, [sep]) == "-"
  {
    CleanOne(lower, sep);
  }

  lemma JoinedIsSlug(a: string, b: string)
    requires IsSlug(a) && IsSlug(b) && a != "" && b != "" && |a| + 1 + |b| <= 50
    ensures IsSlug(a + "-" + b)
  {
    var s := a + "-" + b;
    forall i: nat ensures !DoubleAt(s, i) {
      assert !DoubleAt(a, i);
      assert i > |a| ==> !DoubleAt(b, i - |a| - 1);
    }
  }

  /** A character that lower-cases to nothing a slug may hold, a space or an underscore, leaves no trace. */
  lemma OtherCharactersGo(lower: char -> char, a: string, c: char, b: string)
    requires !('a' <= lower(c) <= 'z') && !('0' <= lower(c) <= '9')
    requires lower(c) != '-' && lower(c) != ' ' && lower(c) != '_'
    ensures Slugified(lower, a + [c] + b) == Slugified(lower, a + b)
  {
    CleanAppend(lower, a + [c], b);
    CleanAppend(lower, a, [c]);
    CleanAppend(lower, a, b);
    CleanOne(lower, c);
    assert Clean(lower, a) + "" == Clean(lower, a);
  }

  /** A character that lower-cases to a letter from a to z or a digit stays as that. */
  lemma LettersAndDigitsStay(lower: char -> char, a: string, c: char, b: string)
    requires 'a' <= lower(c) <= 'z' || '0' <= lower(c) <= '9'
    ensures Clean(lower, a + [c] + b) == Clean(lower, a) + [lower(c)] + Clean(lower, b)
  {
    CleanAppend(lower, a + [c], b);
    CleanAppend(lower, a, [c]);
    CleanOne(lower, c);
  }

  lemma LetterIsItsOwnSlug(lower: char -> char, c: char)
    requires 'a' <= lower(c) <= 'z' || '0' <= lower(c) <= '9'
    ensures Slugified(lower, [c]) == [lower(c)]
  {
    CleanOne(lower, c);
    CollapseFixes([lower(c)]);
  }

  /** Upper and lower case give the same slug. */
  lemma {:induction false} CaseDoesNotMatter(lower: char -> char, s: string)
    requires forall c :: lower(lower(c)) == lower(c)
    ensures Clean(lower, Lowered(lower, s)) == Clean(lower, s)
    ensures Slugified(lower, Lowered(lower, s)) == Slugified(lower, s)
  {
    if s != "" {
      var n := |s| - 1;
      CaseDoesNotMatter(lower, s[..n]);
      assert Lowered(lower, s)[..n] == Lowered(lower, s[..n]);
    }
  }

  /** A slug that has to be cut is the first 50 characters of the whole one, or 49 where the cut would leave a
      hyphen at the end. */
  lemma CutAtFifty(lower: char -> char, s: string)
    ensures var whole, slug := TrimHyphens(Collapse(Clean(lower, s))), Slugified(lower, s);
            && slug <= whole
            && (|whole| <= 50 ==> slug == whole)
            && (|whole| > 50 ==> |slug| == if whole[49] == '-' then 49 else 50)
  {
    var t := Collapse(Clean(lower, s));
    var whole := TrimHyphens(t);
    CollapseHasNoDouble(Clean(lower, s));
    var i, j := TrimIsPart(t);
    PartHasNoDouble(t, i, j);
    if |whole| > 50 {
      var n := TrimRightIsPrefix(whole[..50]);
      assert !DoubleAt(whole, 48);
      CutOfFifty(whole[..50]);
    }
  }

  lemma CutOfFifty(s: string)
    requires |s| == 50 && (s[48] != '-' || s[49] != '-')
    ensures |TrimRightHyphens(s)| == if s[49] == '-' then 49 else 50
  {
  }

  // ---------------------------------------------------------------- branch patterns

  /** A branch pattern: literal text and placeholders. */
  datatype Piece = Literal(text: string) | Key | SlugPart | Type

  /** The pattern with these texts in place of its placeholders. */
  function Filled(ps: seq<Piece>, key: string, slug: string, taskType: string): string {
    if ps == [] then ""
    else
      TextOf(ps[0], key, slug, taskType) + Filled(ps[1..], key, slug, taskType)
  }

  function TextOf(p: Piece, key: string, slug: string, taskType: string): string {
    match p
    case Literal(text) => text
    case Key => key
    case SlugPart => slug
    case Type => taskType
  }

  lemma FilledCons(p: Piece, ps: seq<Piece>, key: string, slug: string, taskType: string)
    ensures Filled([p] + ps, key, slug, taskType) == TextOf(p, key, slug, taskType) + Filled(ps, key, slug, taskType)
  {
    assert ([p] + ps)[1..] == ps;
  }

  lemma FilledOne(p: Piece, key: string, slug: string, taskType: string)
    ensures Filled([p], key, slug, taskType) == TextOf(p, key, slug, taskType)
  {
    FilledCons(p, [], key, slug, taskType);
    assert [p] + [] == [p];
    assert TextOf(p, key, slug, taskType) + "" == TextOf(p, key, slug, taskType);
  }

  function Pattern(ps: seq<Piece>): string {
    Filled(ps, "{key}", "{slug}", "{type}")
  }

  predicate PlainLiterals(ps: seq<Piece>) {
    forall i :: 0 <= i < |ps| && ps[i].Literal? ==> '{' !in ps[i].text
  }

  predicate Placeholder(what: string) {
    |what| >= 2 && what[0] == '{'
  }

  /** The text has no part of this placeholder: no brace at all, or it is another placeholder. */
  predicate Inert(x: string, what: string)
    requires Placeholder(what)
  {
    '{' !in x || (|x| >= 2 && x[0] == '{' && x[1] != what[1] && '{' !in x[1..])
  }

  lemma {:induction false} PlainStays(x: string, rest: string, what: string, with: string)
    requires Placeholder(what) && '{' !in x
    ensures ReplaceAll(x + rest, what, with) == x + ReplaceAll(rest, what, with)
  {
    if x == "" {
      assert x + rest == rest;
    } else {
      PlainStays(x[1..], rest, what, with);
      RestOfBoth(x, rest);
      assert !HasPrefix(x + rest, what);
      Regroup([x[0]], x[1..], ReplaceAll(rest, what, with));
    }
  }

  lemma RestOfBoth<T>(x: seq<T>, rest: seq<T>)
    requires x != []
    ensures (x + rest)[1..] == x[1..] + rest && (x + rest)[0] == x[0] && x == [x[0]] + x[1..]
  {
  }

  lemma OtherSecond(x: string, rest: string, what: string)
    requires Placeholder(what) && |x| >= 2 && x[1] != what[1]
    ensures !HasPrefix(x + rest, what)
  {
    assert (x + rest)[1] == x[1];
  }

  lemma InertStays(x: string, rest: string, what: string, with: string)
    requires Placeholder(what) && Inert(x, what)
    ensures ReplaceAll(x + rest, what, with) == x + ReplaceAll(rest, what, with)
  {
    if '{' !in x {
      PlainStays(x, rest, what, with);
    } else {
      PlainStays(x[1..], rest, what, with);
      RestOfBoth(x, rest);
      OtherSecond(x, rest, what);
      Regroup([x[0]], x[1..], ReplaceAll(rest, what, with));
    }
  }

  lemma PlaceholderGoes(rest: string, what: string, with: string)
    requires Placeholder(what)
    ensures ReplaceAll(what + rest, what, with) == with + ReplaceAll(rest, what, with)
  {
    assert (what + rest)[|what|..] == rest;
    assert HasPrefix(what + rest, what);
  }

  function Swapped(x: string, what: string, with: string): string {
    if x == what then with else x
  }

  /** Replacing one placeholder fills it in and leaves everything else. */
  lemma {:induction false} FillOne(ps: seq<Piece>, k: string, s: string, t: string, rest: string, what: string,
                                   with: string)
    requires PlainLiterals(ps) && Placeholder(what)
    requires Key !in ps || k == what || Inert(k, what)
    requires (s == what || Inert(s, what)) && (t == what || Inert(t, what))
    ensures ReplaceAll(Filled(ps, k, s, t) + rest, what, with) ==
            Filled(ps, Swapped(k, what, with), Swapped(s, what, with), Swapped(t, what, with))
            + ReplaceAll(rest, what, with)
  {
    var k', s', t' := Swapped(k, what, with), Swapped(s, what, with), Swapped(t, what, with);
    if ps == [] {
      assert "" + rest == rest && "" + ReplaceAll(rest, what, with) == ReplaceAll(rest, what, with);
    } else {
      var p, more := ps[0], Filled(ps[1..], k, s, t);
      FillOne(ps[1..], k, s, t, rest, what, with);
      FillPiece(p, k, s, t, more + rest, what, with);
      Regroup(TextOf(p, k, s, t), more, rest);
      Regroup(TextOf(p, k', s', t'), Filled(ps[1..], k', s', t'), ReplaceAll(rest, what, with));
    }
  }

  lemma FillPiece(p: Piece, k: string, s: string, t: string, rest: string, what: string, with: string)
    requires Placeholder(what) && (p.Literal? ==> '{' !in p.text)
    requires p != Key || k == what || Inert(k, what)
    requires (s == what || Inert(s, what)) && (t == what || Inert(t, what))
    ensures ReplaceAll(TextOf(p, k, s, t) + rest, what, with) ==
            TextOf(p, Swapped(k, what, with), Swapped(s, what, with), Swapped(t, what, with))
            + ReplaceAll(rest, what, with)
  {
    var x := TextOf(p, k, s, t);
    if p.Literal? || x != what {
      InertStays(x, rest, what, with);
    } else {
      PlaceholderGoes(rest, what, with);
    }
  }

  lemma FillAll(ps: seq<Piece>, k: string, s: string, t: string, what: string, with: string)
    requires PlainLiterals(ps) && Placeholder(what)
    requires Key !in ps || k == what || Inert(k, what)
    requires (s == what || Inert(s, what)) && (t == what || Inert(t, what))
    ensures ReplaceAll(Filled(ps, k, s, t), what, with) ==
            Filled(ps, Swapped(k, what, with), Swapped(s, what, with), Swapped(t, what, with))
  {
    var whole := Filled(ps, k, s, t);
    FillOne(ps, k, s, t, "", what, with);
    assert whole + "" == whole;
  }

  lemma PlaceholdersAreInert()
    ensures Inert("{key}", "{slug}") && Inert("{key}", "{type}") && Inert("{slug}", "{key}")
    ensures Inert("{slug}", "{type}") && Inert("{type}", "{key}") && Inert("{type}", "{slug}")
    ensures Inert("{slug}", "{key}-") && Inert("{type}", "{key}-") && Inert("{slug}", "{key}--")
    ensures Inert("{type}", "{key}--")
  {
    assert "{key}"[1..] == "key}" && "{slug}"[1..] == "slug}" && "{type}"[1..] == "type}";
  }

  /** Filling in the placeholders one after the other fills in all at once, each with its own text, as long as the
      key and the slug hold no brace. */
  lemma EachPlaceholderHasItsOwn(ps: seq<Piece>, key: string, slug: string, taskType: string)
    requires PlainLiterals(ps) && Pattern(ps) != "" && key != "" && '{' !in key && '{' !in slug
    ensures Interpolated(Pattern(ps), key, slug, taskType) == Filled(ps, key, slug, taskType)
  {
    PlaceholdersAreInert();
    FillAll(ps, "{key}", "{slug}", "{type}", "{key}", key);
    assert "{slug}" != "{key}" && "{type}" != "{key}" && key != "{slug}" && "{type}" != "{slug}";
    FillAll(ps, key, "{slug}", "{type}", "{slug}", slug);
    assert key != "{type}" && slug != "{type}";
    FillAll(ps, key, slug, "{type}", "{type}", taskType);
  }

  /** The slug is never a problem: it holds no brace. */
  lemma SlugsHoldNoBrace(lower: char -> char, title: string)
    ensures '{' !in Slugified(lower, title)
  {
    EveryTitleGivesASlug(lower, title);
  }

  /** A key that is a placeholder itself is filled in again. */
  lemma KeyMayBeAPlaceholder(slug: string, taskType: string)
    ensures Interpolated("{key}", "{type}", slug, taskType) == taskType
  {
    var byKey, byType := [Key], [Type];
    PlaceholdersAreInert();
    FilledOne(Key, "{key}", "", "");
    FilledOne(Key, "{type}", "", "");
    FilledOne(Type, "", "", "{type}");
    FilledOne(Type, "", "", taskType);
    FillAll(byKey, "{key}", "", "", "{key}", "{type}");
    FillAll(byType, "", "", "{type}", "{slug}", slug);
    FillAll(byType, "", "", "{type}", "{type}", taskType);
  }

  lemma {:induction false} NoKeyAnyKey(ps: seq<Piece>, k: string, k': string, s: string, t: string)
    requires Key !in ps
    ensures Filled(ps, k, s, t) == Filled(ps, k', s, t)
  {
    if ps != [] {
      NoKeyAnyKey(ps[1..], k, k', s, t);
    }
  }

  /** Two patterns without the key, around nothing. */
  lemma FillTwo(a: seq<Piece>, b: seq<Piece>, s: string, t: string, what: string, with: string)
    requires PlainLiterals(a) && PlainLiterals(b) && Key !in a && Key !in b && Placeholder(what)
    requires (s == what || Inert(s, what)) && (t == what || Inert(t, what))
    ensures ReplaceAll(Filled(a, "", s, t) + Filled(b, "", s, t), what, with) ==
            Filled(a, "", Swapped(s, what, with), Swapped(t, what, with))
            + Filled(b, "", Swapped(s, what, with), Swapped(t, what, with))
  {
    FillOne(a, "", s, t, Filled(b, "", s, t), what, with);
    FillAll(b, "", s, t, what, with);
  }

  /** Without a key, its placeholder goes together with the hyphens after it, one or two. */
  lemma NoKeyNoHyphens(a: seq<Piece>, hyphens: string, b: seq<Piece>, slug: string, taskType: string)
    requires PlainLiterals(a) && PlainLiterals(b) && Key !in a && Key !in b && '{' !in slug
    requires hyphens == "--" || (hyphens == "-" && !HasPrefix(Pattern(b), "-"))
    ensures Interpolated(Pattern(a) + (("{key}" + hyphens) + Pattern(b)), "", slug, taskType) ==
            Filled(a, "", slug, taskType) + Filled(b, "", slug, taskType)
  {
    PlaceholdersAreInert();
    var x, y := Filled(a, "", "{slug}", "{type}"), Filled(b, "", "{slug}", "{type}");
    NoKeyAnyKey(a, "{key}", "", "{slug}", "{type}");
    NoKeyAnyKey(b, "{key}", "", "{slug}", "{type}");
    KeyAndHyphensGo(a, hyphens, b);
    FillTwo(a, b, "{slug}", "{type}", "{key}", "");
    FillTwo(a, b, "{slug}", "{type}", "{slug}", slug);
    assert slug != "{type}";
    FillTwo(a, b, slug, "{type}", "{type}", taskType);
  }

  lemma KeyAndHyphensGo(a: seq<Piece>, hyphens: string, b: seq<Piece>)
    requires PlainLiterals(a) && PlainLiterals(b) && Key !in a && Key !in b
    requires hyphens == "--" || (hyphens == "-" && !HasPrefix(Filled(b, "", "{slug}", "{type}"), "-"))
    ensures var x, y := Filled(a, "", "{slug}", "{type}"), Filled(b, "", "{slug}", "{type}");
            ReplaceAll(ReplaceAll(x + (("{key}" + hyphens) + y), "{key}--", ""), "{key}-", "") == x + y
  {
    if hyphens == "--" {
      assert "{key}" + hyphens == "{key}--";
      TwoHyphensGo(a, b);
    } else {
      assert "{key}" + hyphens == "{key}-";
      OneHyphenGoes(a, b);
    }
  }

  lemma TwoHyphensGo(a: seq<Piece>, b: seq<Piece>)
    requires PlainLiterals(a) && PlainLiterals(b) && Key !in a && Key !in b
    ensures var x, y := Filled(a, "", "{slug}", "{type}"), Filled(b, "", "{slug}", "{type}");
            ReplaceAll(ReplaceAll(x + ("{key}--" + y), "{key}--", ""), "{key}-", "") == x + y
  {
    PlaceholdersAreInert();
    var y := Filled(b, "", "{slug}", "{type}");
    FillOne(a, "", "{slug}", "{type}", "{key}--" + y, "{key}--", "");
    FillAll(b, "", "{slug}", "{type}", "{key}--", "");
    PlaceholderGoes(y, "{key}--", "");
    assert "" + y == y;
    FillTwo(a, b, "{slug}", "{type}", "{key}-", "");
  }

  lemma OneHyphenGoes(a: seq<Piece>, b: seq<Piece>)
    requires PlainLiterals(a) && PlainLiterals(b) && Key !in a && Key !in b
    requires !HasPrefix(Filled(b, "", "{slug}", "{type}"), "-")
    ensures var x, y := Filled(a, "", "{slug}", "{type}"), Filled(b, "", "{slug}", "{type}");
            ReplaceAll(ReplaceAll(x + ("{key}-" + y), "{key}--", ""), "{key}-", "") == x + y
  {
    PlaceholdersAreInert();
    var y := Filled(b, "", "{slug}", "{type}");
    FillOne(a, "", "{slug}", "{type}", "{key}-" + y, "{key}--", "");
    FillAll(b, "", "{slug}", "{type}", "{key}--", "");
    SingleHyphenStays(y);
    FillOne(a, "", "{slug}", "{type}", "{key}-" + y, "{key}-", "");
    FillAll(b, "", "{slug}", "{type}", "{key}-", "");
    PlaceholderGoes(y, "{key}-", "");
    assert "" + y == y;
  }

  lemma NotTwoHyphens(y: string)
    requires !HasPrefix(y, "-")
    ensures !HasPrefix("{key}-" + y, "{key}--")
  {
    assert y != "" ==> ("{key}-" + y)[6] == y[0] && "{key}--"[6] == '-';
    assert y != "" ==> y[..1] == [y[0]];
  }

  lemma SingleHyphenStays(y: string)
    requires !HasPrefix(y, "-") && ReplaceAll(y, "{key}--", "") == y
    ensures ReplaceAll("{key}-" + y, "{key}--", "") == "{key}-" + y
  {
    var s := "{key}-" + y;
    NotTwoHyphens(y);
    assert s[1..] == "key}-" + y;
    PlainStays("key}-", y, "{key}--", "");
  }

  /** The default pattern. */
  lemma DefaultNames(key: string, slug: string, taskType: string)
    requires '{' !in key && '{' !in slug
    ensures Interpolated("", key, slug, taskType) ==
            if key == "" then "feature/" + slug else "feature/" + (key + ("--" + slug))
  {
    if key == "" {
      DefaultWithoutKey(slug, taskType);
    } else {
      DefaultFilled("{key}", "{slug}", "{type}");
      DefaultFilled(key, slug, taskType);
      DefaultIsPattern();
      EachPlaceholderHasItsOwn(DefaultPieces, key, slug, taskType);
    }
  }

  lemma DefaultIsPattern()
    ensures "feature/" + ("{key}" + ("--" + "{slug}")) == DefaultPattern
    ensures "feature/" + (("{key}" + "--") + "{slug}") == DefaultPattern
  {
  }

  lemma DefaultWithoutKey(slug: string, taskType: string)
    requires '{' !in slug
    ensures Interpolated("", "", slug, taskType) == "feature/" + slug
  {
    FilledOne(Literal("feature/"), "{key}", "{slug}", "{type}");
    FilledOne(SlugPart, "{key}", "{slug}", "{type}");
    FilledOne(Literal("feature/"), "", slug, taskType);
    FilledOne(SlugPart, "", slug, taskType);
    NoKeyNoHyphens([Literal("feature/")], "--", [SlugPart], slug, taskType);
    DefaultIsPattern();
    DefaultForNone("", slug, taskType);
  }

  lemma DefaultForNone(key: string, slug: string, taskType: string)
    ensures Interpolated("", key, slug, taskType) == Interpolated(DefaultPattern, key, slug, taskType)
  {
  }

  const DefaultPieces: seq<Piece> := [Literal("feature/")] + ([Key] + ([Literal("--")] + [SlugPart]))

  lemma DefaultFilled(key: string, slug: string, taskType: string)
    ensures Filled(DefaultPieces, key, slug, taskType) == "feature/" + (key + ("--" + slug))
  {
    FilledCons(Literal("feature/"), [Key] + ([Literal("--")] + [SlugPart]), key, slug, taskType);
    FilledCons(Key, [Literal("--")] + [SlugPart], key, slug, taskType);
    FilledCons(Literal("--"), [SlugPart], key, slug, taskType);
    FilledOne(SlugPart, key, slug, taskType);
  }
}
