/** Browser state kept as a global profile and a worktree overlay (internal/browser/session.go):
    `MergeStates` puts the overlay on top of the profile, `DiffStates` extracts it again. */
module BrowserState {
  import opened Common

  datatype Cookie = Cookie(name: string, value: string, domain: string, path: string,
                           expires: real, httpOnly: bool, secure: bool, sameSite: string)

  type Entries = map<string, string>

  type Storage = map<string, Entries>

  datatype State = State(cookies: seq<Cookie>, localStorage: Storage)

  type Jar = map<string, Cookie>

  // ---------------------------------------------------------------- the joined cookie key

  function Join(domain: string, path: string, name: string): string {
    domain + ("|" + (path + ("|" + name)))
  }

  function Key(c: Cookie): string {
    Join(c.domain, c.path, c.name)
  }

  lemma BarInside(x: string, r: string, y: string, s: string)
    requires x + ("|" + r) == y + ("|" + s) && |x| < |y|
    ensures '|' in y
  {
    assert (x + ("|" + r))[|x|] == '|';
    assert (y + ("|" + s))[|x|] == y[|x|];
  }

  lemma SplitAtBar(x: string, r: string, y: string, s: string)
    requires '|' !in x && '|' !in y && x + ("|" + r) == y + ("|" + s)
    ensures x == y && r == s
  {
    if |x| < |y| {
      BarInside(x, r, y, s);
    } else if |y| < |x| {
      BarInside(y, s, x, r);
    }
    var l, m := x + ("|" + r), y + ("|" + s);
    assert l[..|x|] == x && m[..|x|] == y;
    assert l[|x| + 1..] == r && m[|x| + 1..] == s;
  }

  /** Cookies whose domain and path hold no bar are told apart by the key exactly when their domain, path
      or name differ. */
  lemma KeyIsInjective(domain: string, path: string, name: string, domain': string, path': string, name': string)
    requires '|' !in domain && '|' !in path && '|' !in domain' && '|' !in path'
    ensures Join(domain, path, name) == Join(domain', path', name') <==>
              domain == domain' && path == path' && name == name'
  {
    if Join(domain, path, name) == Join(domain', path', name') {
      SplitAtBar(domain, path + ("|" + name), domain', path' + ("|" + name'));
      SplitAtBar(path, name, path', name');
    }
  }

  /** The identity of a cookie: domain, path and name. */
  predicate SameCookie(c: Cookie, d: Cookie) {
    c.domain == d.domain && c.path == d.path && c.name == d.name
  }

  predicate BarFree(cs: seq<Cookie>) {
    forall i :: 0 <= i < |cs| ==> '|' !in cs[i].domain && '|' !in cs[i].path
  }

  /** Without bars, two cookies share a key exactly when they are the same cookie. */
  lemma KeysTellCookiesApart(c: Cookie, d: Cookie)
    requires BarFree([c, d])
    ensures Key(c) == Key(d) <==> SameCookie(c, d)
  {
    assert BarFree([c, d]) ==> '|' !in [c, d][0].domain && '|' !in [c, d][1].domain;
    assert '|' !in [c, d][0].path && '|' !in [c, d][1].path;
    KeyIsInjective(c.domain, c.path, c.name, d.domain, d.path, d.name);
  }

  /** A bar in the domain or the path always makes some other cookie share the key. */
  lemma BarsCollide(x: string, y: string, path: string, name: string)
    ensures Join(x + "|" + y, path, name) == Join(x, y, path + "|" + name)
    ensures Join(path, x + "|" + y, name) == Join(path, x, y + "|" + name)
  {
    assert Join(x + "|" + y, path, name) == x + "|" + y + "|" + path + "|" + name == Join(x, y, path + "|" + name);
    assert Join(path, x + "|" + y, name) == path + "|" + x + "|" + y + "|" + name == Join(path, x, y + "|" + name);
  }

  // ---------------------------------------------------------------- cookies by key

  function Collect(base: Jar, cs: seq<Cookie>): Jar {
    if cs == [] then base
    else Collect(base, cs[..|cs| - 1])[Key(cs[|cs| - 1]) := cs[|cs| - 1]]
  }

  function Jarred(cs: seq<Cookie>): Jar {
    Collect(map[], cs)
  }

  /** `cs[i]` is the last cookie with key `k`. */
  ghost predicate LastAt(cs: seq<Cookie>, k: string, i: nat) {
    i < |cs| && Key(cs[i]) == k && forall j :: i < j < |cs| ==> Key(cs[j]) != k
  }

  lemma CollectSnoc(base: Jar, cs: seq<Cookie>, c: Cookie)
    ensures Collect(base, cs + [c]) == Collect(base, cs)[Key(c) := c]
  {
    assert (cs + [c])[..|cs|] == cs;
  }

  lemma {:induction false} CollectOverlays(base: Jar, cs: seq<Cookie>)
    ensures Collect(base, cs) == base + Jarred(cs)
  {
    if cs != [] {
      CollectOverlays(base, cs[..|cs| - 1]);
    }
  }

  /** A jar holds under each key the last cookie of that key. */
  lemma {:induction false} JarHoldsTheLast(cs: seq<Cookie>, k: string)
    ensures k in Jarred(cs) <==> exists i: nat :: LastAt(cs, k, i)
    ensures forall i: nat :: LastAt(cs, k, i) ==> k in Jarred(cs) && Jarred(cs)[k] == cs[i]
  {
    if cs != [] {
      var n := |cs| - 1;
      JarHoldsTheLast(cs[..n], k);
      if Key(cs[n]) == k {
        assert LastAt(cs, k, n);
      } else {
        assert forall i: nat :: LastAt(cs, k, i) <==> LastAt(cs[..n], k, i);
      }
    }
  }

  lemma {:induction false} JarKeys(cs: seq<Cookie>, k: string)
    ensures k in Jarred(cs) ==> Key(Jarred(cs)[k]) == k
    ensures k in Jarred(cs) <==> exists i :: 0 <= i < |cs| && Key(cs[i]) == k
  {
    if cs != [] {
      var n := |cs| - 1;
      JarKeys(cs[..n], k);
      assert forall i :: 0 <= i < n ==> cs[..n][i] == cs[i];
    }
  }

  ghost predicate DistinctKeys(cs: seq<Cookie>) {
    forall i, j :: 0 <= i < j < |cs| ==> Key(cs[i]) != Key(cs[j])
  }

  /** `cs` lists the jar, in whatever order, each key once. */
  ghost predicate Listing(cs: seq<Cookie>, jar: Jar) {
    DistinctKeys(cs) && Jarred(cs) == jar
  }

  ghost predicate Keyed(jar: Jar) {
    forall k :: k in jar ==> Key(jar[k]) == k
  }

  // ---------------------------------------------------------------- cookies that differ from the profile

  predicate Changed(jar: Jar, c: Cookie) {
    Key(c) !in jar || jar[Key(c)].value != c.value
  }

  function DiffCookies(jar: Jar, cs: seq<Cookie>): seq<Cookie> {
    if cs == [] then []
    else DiffCookies(jar, cs[..|cs| - 1]) + if Changed(jar, cs[|cs| - 1]) then [cs[|cs| - 1]] else []
  }

  lemma DiffCookiesSnoc(jar: Jar, cs: seq<Cookie>, c: Cookie)
    ensures DiffCookies(jar, cs + [c]) == DiffCookies(jar, cs) + if Changed(jar, c) then [c] else []
  {
    assert (cs + [c])[..|cs|] == cs;
  }

  ghost predicate SomeChanged(jar: Jar, cs: seq<Cookie>, k: string) {
    exists i :: 0 <= i < |cs| && Key(cs[i]) == k && Changed(jar, cs[i])
  }

  lemma {:induction false} DiffJar(jar: Jar, cs: seq<Cookie>, k: string)
    ensures k in Jarred(DiffCookies(jar, cs)) <==> SomeChanged(jar, cs, k)
    ensures k in Jarred(DiffCookies(jar, cs)) ==> Changed(jar, Jarred(DiffCookies(jar, cs))[k]) && k in Jarred(cs)
    ensures k in Jarred(cs) && Changed(jar, Jarred(cs)[k]) ==>
              k in Jarred(DiffCookies(jar, cs)) && Jarred(DiffCookies(jar, cs))[k] == Jarred(cs)[k]
  {
    if cs != [] {
      var n := |cs| - 1;
      var init, c := cs[..n], cs[n];
      assert cs == init + [c];
      DiffJar(jar, init, k);
      SomeChangedSnoc(jar, init, c, k);
      if Changed(jar, c) {
        CollectSnoc(map[], DiffCookies(jar, init), c);
        assert Jarred(DiffCookies(jar, cs)) == Jarred(DiffCookies(jar, init))[Key(c) := c];
      } else {
        assert DiffCookies(jar, cs) == DiffCookies(jar, init);
      }
      assert Jarred(cs) == Jarred(init)[Key(c) := c];
    }
  }

  lemma SomeChangedSnoc(jar: Jar, cs: seq<Cookie>, c: Cookie, k: string)
    ensures SomeChanged(jar, cs + [c], k) <==> SomeChanged(jar, cs, k) || (Key(c) == k && Changed(jar, c))
  {
    var all := cs + [c];
    assert all[|cs|] == c && forall i :: 0 <= i < |cs| ==> all[i] == cs[i];
  }

  // ---------------------------------------------------------------- merging and extracting, cookie by cookie

  ghost predicate Holds(cs: seq<Cookie>, c: Cookie) {
    exists i :: 0 <= i < |cs| && SameCookie(cs[i], c)
  }

  /** `d` is the last of `cs` that is the same cookie as `c`. */
  ghost predicate IsLast(cs: seq<Cookie>, c: Cookie, d: Cookie) {
    exists i :: 0 <= i < |cs| && LastSame(cs, c, i) && cs[i] == d
  }

  ghost predicate LastSame(cs: seq<Cookie>, c: Cookie, i: int)
    requires 0 <= i < |cs|
  {
    SameCookie(cs[i], c) && forall j :: i < j < |cs| ==> !SameCookie(cs[j], c)
  }

  /** `i` is the only place where the cookie is. */
  ghost predicate OnlyAt(cs: seq<Cookie>, c: Cookie, i: int)
    requires 0 <= i < |cs|
  {
    SameCookie(cs[i], c) && forall j :: 0 <= j < |cs| && j != i ==> !SameCookie(cs[j], c)
  }

  /** The merged cookies hold `c` exactly once, with the last of `b` or else the last of `a`. */
  ghost predicate MergedOnce(a: seq<Cookie>, b: seq<Cookie>, merged: seq<Cookie>, c: Cookie) {
    exists i :: 0 <= i < |merged| && OnlyAt(merged, c, i)
                && if Holds(b, c) then IsLast(b, c, merged[i]) else IsLast(a, c, merged[i])
  }

  /** Every cookie of `a` or `b` is there once, and no other is. */
  ghost predicate MergedCookies(a: seq<Cookie>, b: seq<Cookie>, merged: seq<Cookie>) {
    && (forall c :: c in a || c in b ==> MergedOnce(a, b, merged, c))
    && (forall i :: 0 <= i < |merged| ==> merged[i] in a || merged[i] in b)
  }

  /** `c` is not in `a`, or with another value in the end. */
  ghost predicate NewIn(a: seq<Cookie>, c: Cookie) {
    !Holds(a, c) || exists d :: IsLast(a, c, d) && d.value != c.value
  }

  /** `diff` is made of the cookies of `b` at the places `at`, which are those of all that are new. */
  ghost predicate Selects(a: seq<Cookie>, b: seq<Cookie>, diff: seq<Cookie>, at: seq<int>) {
    && |at| == |diff|
    && (forall i :: 0 <= i < |at| ==> 0 <= at[i] < |b| && diff[i] == b[at[i]])
    && (forall i, j :: 0 <= i < j < |at| ==> at[i] < at[j])
    && (forall k :: 0 <= k < |b| ==> (k in at <==> NewIn(a, b[k])))
  }

  lemma BarFreePair(cs: seq<Cookie>, i: int, c: Cookie)
    requires BarFree(cs) && 0 <= i < |cs| && BarFree([c])
    ensures Key(cs[i]) == Key(c) <==> SameCookie(cs[i], c)
  {
    assert [c][0] == c;
    KeysTellCookiesApart(cs[i], c);
  }

  lemma LastIsLast(cs: seq<Cookie>, c: Cookie, i: nat)
    requires BarFree(cs) && BarFree([c]) && i < |cs|
    ensures LastAt(cs, Key(c), i) <==> LastSame(cs, c, i)
  {
    forall j | 0 <= j < |cs| ensures Key(cs[j]) == Key(c) <==> SameCookie(cs[j], c) {
      BarFreePair(cs, j, c);
    }
  }

  /** What a jar holds under the key of a cookie: the last one that is the same cookie. */
  lemma JarOf(cs: seq<Cookie>, c: Cookie)
    requires BarFree(cs) && BarFree([c])
    ensures Key(c) in Jarred(cs) <==> Holds(cs, c)
    ensures Key(c) in Jarred(cs) ==> IsLast(cs, c, Jarred(cs)[Key(c)])
    ensures forall d :: IsLast(cs, c, d) ==> Key(c) in Jarred(cs) && d == Jarred(cs)[Key(c)]
  {
    JarHoldsTheLast(cs, Key(c));
    JarKeys(cs, Key(c));
    forall i | 0 <= i < |cs| ensures Key(cs[i]) == Key(c) <==> SameCookie(cs[i], c) {
      BarFreePair(cs, i, c);
    }
    if Key(c) in Jarred(cs) {
      var i: nat :| LastAt(cs, Key(c), i);
      LastIsLast(cs, c, i);
      assert SameCookie(cs[i], c);
    }
    forall d | IsLast(cs, c, d) ensures Key(c) in Jarred(cs) && d == Jarred(cs)[Key(c)] {
      var i :| 0 <= i < |cs| && LastSame(cs, c, i) && cs[i] == d;
      LastIsLast(cs, c, i);
    }
  }

  lemma JarIsFromTheList(cs: seq<Cookie>, k: string)
    requires k in Jarred(cs)
    ensures Jarred(cs)[k] in cs
  {
    JarHoldsTheLast(cs, k);
  }

  lemma ListedOnce(a: seq<Cookie>, b: seq<Cookie>, merged: seq<Cookie>, c: Cookie)
    requires BarFree(a) && BarFree(b) && BarFree(merged) && BarFree([c]) && (c in a || c in b)
    requires Listing(merged, Jarred(a) + Jarred(b))
    ensures MergedOnce(a, b, merged, c)
  {
    JarOf(a, c);
    JarOf(b, c);
    JarOf(merged, c);
    assert Holds(a, c) || Holds(b, c) by {
      if c in a {
        var i :| 0 <= i < |a| && a[i] == c;
        assert SameCookie(a[i], c);
      } else {
        var i :| 0 <= i < |b| && b[i] == c;
        assert SameCookie(b[i], c);
      }
    }
    var i :| 0 <= i < |merged| && LastSame(merged, c, i) && merged[i] == Jarred(merged)[Key(c)];
    forall j | 0 <= j < |merged| && j != i ensures !SameCookie(merged[j], c) {
      BarFreePair(merged, j, c);
      BarFreePair(merged, i, c);
    }
    assert OnlyAt(merged, c, i);
  }

  lemma ListingIsMerged(a: seq<Cookie>, b: seq<Cookie>, merged: seq<Cookie>)
    requires BarFree(a) && BarFree(b) && Listing(merged, Jarred(a) + Jarred(b))
    ensures MergedCookies(a, b, merged)
  {
    forall i | 0 <= i < |merged| ensures merged[i] in a || merged[i] in b {
      OnlyOne(merged, Key(merged[i]));
      if Key(merged[i]) in Jarred(b) {
        JarIsFromTheList(b, Key(merged[i]));
      } else {
        JarIsFromTheList(a, Key(merged[i]));
      }
    }
    assert BarFree(merged);
    forall c | c in a || c in b ensures MergedOnce(a, b, merged, c) {
      assert BarFree([c]);
      ListedOnce(a, b, merged, c);
    }
  }

  lemma ChangedIsNew(a: seq<Cookie>, c: Cookie)
    requires BarFree(a) && BarFree([c])
    ensures Changed(Jarred(a), c) <==> NewIn(a, c)
  {
    JarOf(a, c);
  }

  lemma {:induction false} DiffSelects(a: seq<Cookie>, b: seq<Cookie>) returns (at: seq<int>)
    requires BarFree(a) && BarFree(b)
    ensures Selects(a, b, DiffCookies(Jarred(a), b), at)
  {
    at := [];
    if b != [] {
      var n := |b| - 1;
      at := DiffSelects(a, b[..n]);
      assert BarFree([b[n]]);
      ChangedIsNew(a, b[n]);
      SelectsSnoc(a, b[..n], DiffCookies(Jarred(a), b[..n]), at, b[n]);
      LastOne(b);
      if Changed(Jarred(a), b[n]) {
        at := at + [n];
      }
    }
  }

  lemma SelectsSnoc(a: seq<Cookie>, b: seq<Cookie>, diff: seq<Cookie>, at: seq<int>, c: Cookie)
    requires Selects(a, b, diff, at)
    ensures NewIn(a, c) ==> Selects(a, b + [c], diff + [c], at + [|b|])
    ensures !NewIn(a, c) ==> Selects(a, b + [c], diff + [], at)
  {
    assert diff + [] == diff;
    forall k | 0 <= k < |b + [c]| ensures k in at <==> k < |b| && NewIn(a, b[k]) {
    }
    assert forall k :: 0 <= k < |b| ==> (b + [c])[k] == b[k];
  }

  // ---------------------------------------------------------------- local storage

  function At(s: Storage, origin: string): Entries {
    if origin in s then s[origin] else map[]
  }

  function Get(e: Entries, k: string): string {
    if k in e then e[k] else ""
  }

  /** A lookup as the program makes it: what is missing reads as the empty string. */
  function Lookup(s: Storage, origin: string, k: string): string {
    Get(At(s, origin), k)
  }

  function MergedStorage(a: Storage, b: Storage): Storage {
    map o | o in a.Keys + b.Keys :: At(a, o) + At(b, o)
  }

  predicate EntryChanged(a: Storage, origin: string, k: string, v: string) {
    origin !in a || Get(a[origin], k) != v
  }

  function ChangedEntries(a: Storage, origin: string, e: Entries): Entries {
    map k | k in e && EntryChanged(a, origin, k, e[k]) :: e[k]
  }

  function DiffStorage(a: Storage, b: Storage): Storage {
    map o | o in b && ChangedEntries(a, o, b[o]) != map[] :: ChangedEntries(a, o, b[o])
  }

  predicate HasEntry(s: Storage, origin: string, k: string) {
    origin in s && k in s[origin]
  }

  /** Every origin and every entry of either storage, with the value of `b` where it has one. */
  ghost predicate MergedEntries(a: Storage, b: Storage, merged: Storage) {
    && (forall o :: o in merged <==> o in a || o in b)
    && (forall o, k :: HasEntry(merged, o, k) <==> HasEntry(a, o, k) || HasEntry(b, o, k))
    && (forall o, k :: HasEntry(merged, o, k) ==> merged[o][k] == if HasEntry(b, o, k) then b[o][k] else a[o][k])
  }

  /** The entries of `b` that `a` lacks or has with another value, a missing one reading as empty where `a` has the
      origin; no origin without an entry. */
  ghost predicate DiffedEntries(a: Storage, b: Storage, diff: Storage) {
    && (forall o, k :: HasEntry(diff, o, k) <==>
          HasEntry(b, o, k) && (o !in a || b[o][k] != if k in a[o] then a[o][k] else ""))
    && (forall o, k :: HasEntry(diff, o, k) ==> diff[o][k] == b[o][k])
    && (forall o :: o in diff ==> diff[o] != map[])
  }

  lemma MergedStorageIsMerged(a: Storage, b: Storage)
    ensures MergedEntries(a, b, MergedStorage(a, b))
  {
    forall o, k ensures HasEntry(MergedStorage(a, b), o, k) <==> HasEntry(a, o, k) || HasEntry(b, o, k) {
      MergedAt(a, b, o);
    }
  }

  lemma DiffStorageIsDiffed(a: Storage, b: Storage)
    ensures DiffedEntries(a, b, DiffStorage(a, b))
  {
    forall o, k
      ensures HasEntry(DiffStorage(a, b), o, k) <==> HasEntry(b, o, k) && EntryChanged(a, o, k, b[o][k])
    {
      DiffAt(a, b, o);
      if HasEntry(b, o, k) && EntryChanged(a, o, k, b[o][k]) {
        assert k in ChangedEntries(a, o, b[o]);
      }
    }
  }

  // ---------------------------------------------------------------- merging and extracting storage

  lemma MergedAt(a: Storage, b: Storage, o: string)
    ensures At(MergedStorage(a, b), o) == At(a, o) + At(b, o)
    ensures o in MergedStorage(a, b) <==> o in a || o in b
  {
  }

  lemma DiffAt(a: Storage, b: Storage, o: string)
    ensures At(DiffStorage(a, b), o) == ChangedEntries(a, o, At(b, o))
    ensures o in DiffStorage(a, b) <==> ChangedEntries(a, o, At(b, o)) != map[]
  {
    assert ChangedEntries(a, o, map[]) == map[];
  }

  /** Storages are equal when they have the same origins with the same entries. */
  lemma SameStorage(x: Storage, y: Storage)
    requires forall o :: (o in x <==> o in y) && At(x, o) == At(y, o)
    ensures x == y
  {
    forall o | o in x ensures x[o] == y[o] {
      assert At(x, o) == At(y, o);
    }
  }

  lemma MergedStorageNext(dst: Storage, src: Storage, origin: string, e: Entries)
    requires origin !in src
    ensures MergedStorage(dst, src[origin := e]) == MergedStorage(dst, src)[origin := At(dst, origin) + e]
    ensures At(MergedStorage(dst, src), origin) == At(dst, origin)
  {
    var x, y := MergedStorage(dst, src[origin := e]), MergedStorage(dst, src)[origin := At(dst, origin) + e];
    forall o ensures (o in x <==> o in y) && At(x, o) == At(y, o) {
      MergedAt(dst, src[origin := e], o);
      MergedAt(dst, src, o);
    }
    SameStorage(x, y);
    MergedAt(dst, src, origin);
    assert At(dst, origin) + map[] == At(dst, origin);
  }

  lemma MergedStorageNothing(s: Storage)
    ensures MergedStorage(s, map[]) == s && MergedStorage(map[], s) == s
  {
    var x, y := MergedStorage(s, map[]), MergedStorage(map[], s);
    forall o ensures (o in x <==> o in s) && At(x, o) == At(s, o) {
      MergedAt(s, map[], o);
    }
    SameStorage(x, s);
    forall o ensures (o in y <==> o in s) && At(y, o) == At(s, o) {
      MergedAt(map[], s, o);
    }
    SameStorage(y, s);
  }

  lemma DiffStorageNext(a: Storage, b: Storage, origin: string, e: Entries)
    requires origin !in b
    ensures origin !in DiffStorage(a, b)
    ensures DiffStorage(a, b[origin := e]) ==
            var changed := ChangedEntries(a, origin, e);
            if changed == map[] then DiffStorage(a, b) else DiffStorage(a, b)[origin := changed]
  {
  }

  lemma ChangedEntriesNext(a: Storage, origin: string, e: Entries, k: string, v: string)
    requires k !in e
    ensures ChangedEntries(a, origin, e[k := v]) ==
            var changed := ChangedEntries(a, origin, e);
            if EntryChanged(a, origin, k, v) then changed[k := v] else changed
  {
  }

  // ---------------------------------------------------------------- mergeStates

  method PutCookies(base: Jar, cs: seq<Cookie>) returns (jar: Jar)
    ensures jar == Collect(base, cs)
  {
    jar := base;
    for i := 0 to |cs|
      invariant jar == Collect(base, cs[..i])
    {
      CollectSnoc(base, cs[..i], cs[i]);
      Border(cs, i);
      jar := jar[Key(cs[i]) := cs[i]];
    }
    assert cs[..|cs|] == cs;
  }

  lemma ListingNext(cs: seq<Cookie>, jar: Jar, c: Cookie)
    requires Listing(cs, jar) && Key(c) !in jar
    ensures Listing(cs + [c], jar[Key(c) := c])
  {
    CollectSnoc(map[], cs, c);
    forall i | 0 <= i < |cs| ensures Key(cs[i]) != Key(c) {
      JarKeys(cs, Key(cs[i]));
    }
  }

  /** Ranging over the map in any order. */
  method ListCookies(jar: Jar) returns (cs: seq<Cookie>)
    requires Keyed(jar)
    ensures Listing(cs, jar)
  {
    cs := [];
    var left := jar.Keys;
    VisitedBorders(jar);
    while left != {}
      invariant left <= jar.Keys && Listing(cs, Visited(jar, left))
      decreases left
    {
      ghost var some := Pick(left);
      var k :| k in left;
      VisitedNext(jar, left, k);
      ListingNext(cs, Visited(jar, left), jar[k]);
      cs := cs + [jar[k]];
      left := left - {k};
    }
  }

  method CopyEntries(dst: Storage, origin: string, entries: Entries) returns (out: Storage)
    ensures out == dst[origin := At(dst, origin) + entries]
  {
    out := dst;
    if origin !in out {
      out := out[origin := map[]];
    }
    out := out[origin := out[origin] + entries];
  }

  method CopyStorage(dst: Storage, src: Storage) returns (out: Storage)
    ensures out == MergedStorage(dst, src)
  {
    out := dst;
    var left := src.Keys;
    VisitedBorders(src);
    MergedStorageNothing(dst);
    while left != {}
      invariant left <= src.Keys && out == MergedStorage(dst, Visited(src, left))
      decreases left
    {
      ghost var some := Pick(left);
      var origin :| origin in left;
      VisitedNext(src, left, origin);
      MergedStorageNext(dst, Visited(src, left), origin, src[origin]);
      out := CopyEntries(out, origin, src[origin]);
      left := left - {origin};
    }
  }

  lemma OverlayIsKeyed(a: seq<Cookie>, b: seq<Cookie>)
    ensures Keyed(Jarred(a) + Jarred(b))
  {
    var jar := Jarred(a) + Jarred(b);
    forall k | k in jar ensures Key(jar[k]) == k {
      JarKeys(a, k);
      JarKeys(b, k);
    }
  }

  method MergeStates(a: State, b: State) returns (merged: State)
    ensures Listing(merged.cookies, Jarred(a.cookies) + Jarred(b.cookies))
    ensures merged.localStorage == MergedStorage(a.localStorage, b.localStorage)
    ensures BarFree(a.cookies) && BarFree(b.cookies) ==> MergedCookies(a.cookies, b.cookies, merged.cookies)
    ensures MergedEntries(a.localStorage, b.localStorage, merged.localStorage)
  {
    var jar := PutCookies(map[], a.cookies);
    jar := PutCookies(jar, b.cookies);
    CollectOverlays(Jarred(a.cookies), b.cookies);
    OverlayIsKeyed(a.cookies, b.cookies);
    var cookies := ListCookies(jar);
    var storage := CopyStorage(map[], a.localStorage);
    MergedStorageNothing(a.localStorage);
    storage := CopyStorage(storage, b.localStorage);
    merged := State(cookies, storage);
    MergedStorageIsMerged(a.localStorage, b.localStorage);
    if BarFree(a.cookies) && BarFree(b.cookies) {
      ListingIsMerged(a.cookies, b.cookies, cookies);
    }
  }

  // ---------------------------------------------------------------- diffStates

  method DiffStates(a: State, b: State) returns (diff: State)
    ensures diff == State(DiffCookies(Jarred(a.cookies), b.cookies), DiffStorage(a.localStorage, b.localStorage))
    ensures BarFree(a.cookies) && BarFree(b.cookies) ==>
              exists at :: Selects(a.cookies, b.cookies, diff.cookies, at)
    ensures DiffedEntries(a.localStorage, b.localStorage, diff.localStorage)
  {
    var aCookies := PutCookies(map[], a.cookies);
    var cookies: seq<Cookie> := [];
    for i := 0 to |b.cookies|
      invariant cookies == DiffCookies(aCookies, b.cookies[..i])
    {
      var c := b.cookies[i];
      DiffCookiesSnoc(aCookies, b.cookies[..i], c);
      Border(b.cookies, i);
      if Key(c) !in aCookies || aCookies[Key(c)].value != c.value {
        cookies := cookies + [c];
      }
    }
    assert b.cookies[..|b.cookies|] == b.cookies;
    var storage := DiffOrigins(a.localStorage, b.localStorage);
    diff := State(cookies, storage);
    DiffStorageIsDiffed(a.localStorage, b.localStorage);
    if BarFree(a.cookies) && BarFree(b.cookies) {
      var at := DiffSelects(a.cookies, b.cookies);
    }
  }

  method DiffOrigins(a: Storage, b: Storage) returns (diff: Storage)
    ensures diff == DiffStorage(a, b)
  {
    diff := map[];
    var left := b.Keys;
    VisitedBorders(b);
    while left != {}
      invariant left <= b.Keys && diff == DiffStorage(a, Visited(b, left))
      decreases left
    {
      ghost var some := Pick(left);
      var origin :| origin in left;
      VisitedNext(b, left, origin);
      DiffStorageNext(a, Visited(b, left), origin, b[origin]);
      diff := DiffOrigin(a, diff, origin, b[origin]);
      left := left - {origin};
    }
  }

  /** `diff` with the changed entries of an origin, which is there only if it has some. */
  function WithOrigin(diff: Storage, origin: string, changed: Entries): Storage {
    if changed == map[] then diff else diff[origin := changed]
  }

  lemma WithOriginNext(diff: Storage, origin: string, changed: Entries, k: string, v: string)
    requires origin !in diff
    ensures var now := WithOrigin(diff, origin, changed);
            now[origin := At(now, origin)[k := v]] == WithOrigin(diff, origin, changed[k := v])
  {
    assert k in changed[k := v];
    assert At(WithOrigin(diff, origin, changed), origin) == changed;
  }

  method PutEntry(diff: Storage, origin: string, k: string, v: string) returns (out: Storage)
    ensures out == diff[origin := At(diff, origin)[k := v]]
  {
    out := diff;
    if origin !in out {
      out := out[origin := map[]];
    }
    out := out[origin := out[origin][k := v]];
  }

  /** The entries of one origin; the origin is created in `diff` with its first changed entry. */
  method DiffOrigin(a: Storage, diff: Storage, origin: string, entries: Entries) returns (out: Storage)
    requires origin !in diff
    ensures out == WithOrigin(diff, origin, ChangedEntries(a, origin, entries))
  {
    out := diff;
    var left := entries.Keys;
    VisitedBorders(entries);
    while left != {}
      invariant left <= entries.Keys
      invariant out == WithOrigin(diff, origin, ChangedEntries(a, origin, Visited(entries, left)))
      decreases left
    {
      ghost var some := Pick(left);
      var k :| k in left;
      VisitedNext(entries, left, k);
      ChangedEntriesNext(a, origin, Visited(entries, left), k, entries[k]);
      if EntryChanged(a, origin, k, entries[k]) {
        WithOriginNext(diff, origin, ChangedEntries(a, origin, Visited(entries, left)), k, entries[k]);
        out := PutEntry(out, origin, k, entries[k]);
      }
      left := left - {k};
    }
  }

  // ---------------------------------------------------------------- merging the overlay back

  function ValueOf(jar: Jar, k: string): Option<string> {
    if k in jar then Some(jar[k].value) else None
  }

  /** A cookie of the profile that the new state sets to another value first and then back to the
      profile's. */
  ghost predicate Stale(a: seq<Cookie>, b: seq<Cookie>, k: string) {
    && k in Jarred(a) && k in Jarred(b) && Jarred(b)[k].value == Jarred(a)[k].value
    && exists i :: 0 <= i < |b| && Key(b[i]) == k && b[i].value != Jarred(a)[k].value
  }

  /** Merging the extracted overlay gives each cookie the value that merging the whole state gives it,
      except exactly the stale ones. */
  lemma OverlayKeepsCookieValue(a: seq<Cookie>, b: seq<Cookie>, k: string)
    ensures ValueOf(Jarred(a) + Jarred(DiffCookies(Jarred(a), b)), k) == ValueOf(Jarred(a) + Jarred(b), k)
            <==> !Stale(a, b, k)
  {
    DiffJar(Jarred(a), b, k);
    JarKeys(b, k);
    JarKeys(DiffCookies(Jarred(a), b), k);
  }

  /** States that hold each cookie once, as merged states do, have nothing stale. */
  lemma DistinctIsNeverStale(a: seq<Cookie>, b: seq<Cookie>, k: string)
    requires DistinctKeys(b)
    ensures !Stale(a, b, k)
  {
    forall i | 0 <= i < |b| && Key(b[i]) == k ensures k in Jarred(b) && Jarred(b)[k] == b[i] {
      JarHoldsTheLast(b, k);
      assert LastAt(b, k, i);
    }
  }

  lemma StaleCookiesExist(c: Cookie)
    requires c.value != "new"
    ensures Stale([c], [c.(value := "new"), c], Key(c))
  {
    var b := [c.(value := "new"), c];
    assert b[0].value == "new";
    assert LastAt([c], Key(c), 0) && LastAt(b, Key(c), 1);
    JarHoldsTheLast([c], Key(c));
    JarHoldsTheLast(b, Key(c));
  }

  /** The whole cookie comes back exactly when it is not stale and, if its value is the profile's, it is the
      profile's cookie: its other attributes are lost otherwise. */
  lemma OverlayKeepsWholeCookie(a: seq<Cookie>, b: seq<Cookie>, k: string)
    requires k in Jarred(b)
    ensures k in Jarred(a) + Jarred(DiffCookies(Jarred(a), b))
    ensures (Jarred(a) + Jarred(DiffCookies(Jarred(a), b)))[k] == Jarred(b)[k] <==>
              && !Stale(a, b, k)
              && (k in Jarred(a) && Jarred(a)[k].value == Jarred(b)[k].value ==> Jarred(a)[k] == Jarred(b)[k])
  {
    DiffJar(Jarred(a), b, k);
    JarKeys(b, k);
    JarKeys(DiffCookies(Jarred(a), b), k);
    OverlayKeepsCookieValue(a, b, k);
  }

  lemma EntryKept(a: Storage, o: string, e: Entries, k: string)
    ensures Get(At(a, o) + ChangedEntries(a, o, e), k) == Get(At(a, o) + e, k)
  {
  }

  lemma OverlayKeepsStorage(a: Storage, b: Storage, origin: string, k: string)
    ensures Lookup(MergedStorage(a, DiffStorage(a, b)), origin, k) == Lookup(MergedStorage(a, b), origin, k)
  {
    MergedAt(a, DiffStorage(a, b), origin);
    MergedAt(a, b, origin);
    DiffAt(a, b, origin);
    EntryKept(a, origin, At(b, origin), k);
  }

  // ---------------------------------------------------------------- deletions

  /** The overlay cannot say that something is gone: a cookie comes back with the value it has in the state
      exactly when it is not stale and not one of the profile that the state has lost. */
  lemma OverlayGivesBackCookie(a: seq<Cookie>, b: seq<Cookie>, k: string)
    ensures ValueOf(Jarred(a) + Jarred(DiffCookies(Jarred(a), b)), k) == ValueOf(Jarred(b), k)
            <==> !Stale(a, b, k) && (k in Jarred(a) ==> k in Jarred(b))
  {
    OverlayKeepsCookieValue(a, b, k);
    DiffJar(Jarred(a), b, k);
  }

  /** A lookup finds what it finds in the state exactly when the state has the entry or the profile has
      nothing but the empty text under it. */
  lemma OverlayGivesBackEntry(a: Storage, b: Storage, origin: string, k: string)
    ensures Lookup(MergedStorage(a, DiffStorage(a, b)), origin, k) == Lookup(b, origin, k)
            <==> k in At(b, origin) || Lookup(a, origin, k) == ""
  {
    OverlayKeepsStorage(a, b, origin, k);
    MergedAt(a, b, origin);
  }

  // ---------------------------------------------------------------- extracting the overlay again

  /** Extracting from the merged state lists the overlay's cookies, each key once, with its last cookie. */
  lemma ExtractAfterMerge(a: seq<Cookie>, b: seq<Cookie>, merged: seq<Cookie>)
    requires Listing(merged, Jarred(a) + Jarred(DiffCookies(Jarred(a), b)))
    ensures Listing(DiffCookies(Jarred(a), merged), Jarred(DiffCookies(Jarred(a), b)))
  {
    var jar, overlay := Jarred(a), DiffCookies(Jarred(a), b);
    var again := DiffCookies(jar, merged);
    DiffKeepsDistinct(jar, merged);
    forall k ensures k in Jarred(again) <==> k in Jarred(overlay) {
      ExtractOne(a, b, merged, k);
    }
    forall k | k in Jarred(again) ensures Jarred(again)[k] == Jarred(overlay)[k] {
      ExtractOne(a, b, merged, k);
    }
  }

  lemma ExtractOne(a: seq<Cookie>, b: seq<Cookie>, merged: seq<Cookie>, k: string)
    requires Listing(merged, Jarred(a) + Jarred(DiffCookies(Jarred(a), b)))
    ensures var jar, overlay := Jarred(a), DiffCookies(Jarred(a), b);
            var again := DiffCookies(jar, merged);
            && (k in Jarred(again) <==> k in Jarred(overlay))
            && (k in Jarred(again) ==> Jarred(again)[k] == Jarred(overlay)[k])
  {
    var jar, overlay := Jarred(a), DiffCookies(Jarred(a), b);
    DiffJar(jar, b, k);
    DiffJar(jar, merged, k);
    JarKeys(a, k);
    if k in Jarred(merged) && !Changed(jar, Jarred(merged)[k]) {
      OnlyOne(merged, k);
    }
  }

  lemma OnlyOne(cs: seq<Cookie>, k: string)
    requires DistinctKeys(cs)
    ensures forall i :: 0 <= i < |cs| && Key(cs[i]) == k ==> k in Jarred(cs) && Jarred(cs)[k] == cs[i]
  {
    forall i | 0 <= i < |cs| && Key(cs[i]) == k ensures k in Jarred(cs) && Jarred(cs)[k] == cs[i] {
      JarHoldsTheLast(cs, k);
      assert LastAt(cs, k, i);
    }
  }

  lemma {:induction false} DiffKeepsDistinct(jar: Jar, cs: seq<Cookie>)
    requires DistinctKeys(cs)
    ensures DistinctKeys(DiffCookies(jar, cs))
  {
    if cs != [] {
      var n := |cs| - 1;
      DiffKeepsDistinct(jar, cs[..n]);
      var kept := DiffCookies(jar, cs[..n]);
      forall i | 0 <= i < |kept| ensures Key(kept[i]) != Key(cs[n]) {
        JarKeys(kept, Key(kept[i]));
        DiffJar(jar, cs[..n], Key(kept[i]));
        JarKeys(cs[..n], Key(kept[i]));
      }
    }
  }

  lemma {:induction false} CountInListing(cs: seq<Cookie>, c: Cookie)
    requires DistinctKeys(cs)
    ensures multiset(cs)[c] == if Key(c) in Jarred(cs) && Jarred(cs)[Key(c)] == c then 1 else 0
  {
    if cs != [] {
      var n := |cs| - 1;
      CountInListing(cs[..n], c);
      assert cs == cs[..n] + [cs[n]];
      JarKeys(cs[..n], Key(cs[n]));
    }
  }

  lemma ListingsArePermutations(x: seq<Cookie>, y: seq<Cookie>)
    requires DistinctKeys(x) && DistinctKeys(y) && Jarred(x) == Jarred(y)
    ensures multiset(x) == multiset(y)
  {
    forall c ensures multiset(x)[c] == multiset(y)[c] {
      CountInListing(x, c);
      CountInListing(y, c);
    }
  }

  /** Extracting after merging gives back the overlay itself, up to order, exactly when the overlay names
      each cookie once. */
  lemma ExtractIsTheOverlay(a: seq<Cookie>, b: seq<Cookie>, merged: seq<Cookie>)
    requires Listing(merged, Jarred(a) + Jarred(DiffCookies(Jarred(a), b)))
    ensures multiset(DiffCookies(Jarred(a), merged)) == multiset(DiffCookies(Jarred(a), b))
            <==> DistinctKeys(DiffCookies(Jarred(a), b))
  {
    var again, overlay := DiffCookies(Jarred(a), merged), DiffCookies(Jarred(a), b);
    ExtractAfterMerge(a, b, merged);
    if DistinctKeys(overlay) {
      ListingsArePermutations(again, overlay);
    }
    if multiset(again) == multiset(overlay) {
      PermutationsAreDistinct(again, overlay);
    }
  }

  lemma PermutationsAreDistinct(x: seq<Cookie>, y: seq<Cookie>)
    requires DistinctKeys(x) && multiset(x) == multiset(y)
    ensures DistinctKeys(y)
  {
    forall i, j | 0 <= i < j < |y| ensures Key(y[i]) != Key(y[j]) {
      CountInListing(x, y[i]);
      CountInListing(x, y[j]);
      CountTwo(y, i, j);
    }
  }

  lemma CountTwo(y: seq<Cookie>, i: nat, j: nat)
    requires i < j < |y|
    ensures multiset(y)[y[i]] >= 1 && multiset(y)[y[j]] >= 1
    ensures y[i] == y[j] ==> multiset(y)[y[i]] >= 2
  {
    assert y == y[..j] + y[j..];
    assert y[i] in y[..j] && y[j] in y[j..];
  }

  /** For local storage the overlay comes back exactly. */
  lemma ExtractStorage(a: Storage, b: Storage)
    ensures DiffStorage(a, MergedStorage(a, DiffStorage(a, b))) == DiffStorage(a, b)
  {
    var overlay := DiffStorage(a, b);
    var again := DiffStorage(a, MergedStorage(a, overlay));
    forall o ensures (o in again <==> o in overlay) && At(again, o) == At(overlay, o) {
      ExtractOrigin(a, b, o);
    }
    SameStorage(again, overlay);
  }

  lemma ChangedAgain(a: Storage, o: string, e: Entries)
    ensures ChangedEntries(a, o, At(a, o) + ChangedEntries(a, o, e)) == ChangedEntries(a, o, e)
  {
  }

  lemma ExtractOrigin(a: Storage, b: Storage, o: string)
    ensures var overlay := DiffStorage(a, b);
            var again := DiffStorage(a, MergedStorage(a, overlay));
            At(again, o) == At(overlay, o) && (o in again <==> o in overlay)
  {
    var overlay := DiffStorage(a, b);
    MergedAt(a, overlay, o);
    DiffAt(a, b, o);
    DiffAt(a, MergedStorage(a, overlay), o);
    ChangedAgain(a, o, At(b, o));
  }
}
