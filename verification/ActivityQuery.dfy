/** The early-exit query over the activity log (internal/activitylog/query.go).

    Files are scanned newest first and each from its end; the scan stops at the first file whose whole
    day lies before the cutoff, and as soon as the limit is reached.  The reference is one backward scan
    of everything that was ever kept, filtered and cut to the limit. */
module ActivityQuery {
  import opened Common
  import opened Text
  import opened SortedSets
  import opened ActivityChain
  import opened ActivityWriter

  /** `since` and `limit` switch their filter off when they are not positive. */
  datatype QueryOptions = QueryOptions(since: int, pattern: string, errorsOnly: bool, limit: int)

  /** One day file: its day if the file name tells one, its lines or the failure to read them. */
  datatype DayFile = DayFile(day: Option<int>, content: File)

  /** matchesMethodPattern: some '|'-separated part, trimmed, occurs in the name; "" matches everything. */
  predicate MatchesPattern(operation: string, pattern: string) {
    pattern == "" || exists p :: p in Split(pattern, '|') && Contains(operation, TrimSpace(p))
  }

  predicate Keep(now: int, opts: QueryOptions, e: Entry) {
    && (opts.since > 0 ==> e.timestamp >= now - opts.since)
    && (opts.errorsOnly ==> e.error != "")
    && MatchesPattern(e.operation, opts.pattern)
  }

  /** readFile: blank and malformed lines are skipped. */
  function Entries(c: Codec, lines: seq<Line>): seq<Entry> {
    if lines == [] then []
    else
      var line := lines[|lines| - 1];
      Entries(c, lines[..|lines| - 1]) + if line != "" && c.decode(line).Some? then [c.decode(line).value] else []
  }

  lemma EntriesSnoc(c: Codec, lines: seq<Line>, line: Line)
    ensures Entries(c, lines + [line])
         == Entries(c, lines) + if line != "" && c.decode(line).Some? then [c.decode(line).value] else []
  {
    assert (lines + [line])[..|lines|] == lines;
  }

  method ReadFile(c: Codec, lines: seq<Line>) returns (entries: seq<Entry>)
    ensures entries == Entries(c, lines)
  {
    entries := [];
    for i := 0 to |lines|
      invariant entries == Entries(c, lines[..i])
    {
      EntriesSnoc(c, lines[..i], lines[i]);
      assert lines[..i + 1] == lines[..i] + [lines[i]];
      if lines[i] != "" {
        match c.decode(lines[i]) {
          case None =>
          case Some(e) => entries := entries + [e];
        }
      }
    }
    assert lines[..|lines|] == lines;
  }

  // ---------------------------------------------------------------- the reference

  /** The kept entries of a sequence, last one first. */
  function Backward(now: int, opts: QueryOptions, entries: seq<Entry>): seq<Entry> {
    if entries == [] then []
    else
      (if Keep(now, opts, entries[|entries| - 1]) then [entries[|entries| - 1]] else [])
      + Backward(now, opts, entries[..|entries| - 1])
  }

  lemma {:induction false} BackwardAppend(now: int, opts: QueryOptions, a: seq<Entry>, b: seq<Entry>)
    ensures Backward(now, opts, a + b) == Backward(now, opts, b) + Backward(now, opts, a)
  {
    if b == [] {
      assert a + b == a;
    } else {
      assert (a + b)[..|a + b| - 1] == a + b[..|b| - 1];
      BackwardAppend(now, opts, a, b[..|b| - 1]);
    }
  }

  ghost predicate AllReadable(files: seq<DayFile>) {
    forall f :: f in files ==> f.content.File?
  }

  function EntriesOf(c: Codec, f: DayFile): seq<Entry> {
    match f.content
    case File(lines) => Entries(c, lines)
    case Unreadable => []
  }

  function AllEntries(c: Codec, files: seq<DayFile>): seq<Entry> {
    if files == [] then [] else EntriesOf(c, files[0]) + AllEntries(c, files[1..])
  }

  lemma {:induction false} AllEntriesAppend(c: Codec, a: seq<DayFile>, b: seq<DayFile>)
    ensures AllEntries(c, a + b) == AllEntries(c, a) + AllEntries(c, b)
  {
    if a == [] {
      assert a + b == b;
    } else {
      assert (a + b)[1..] == a[1..] + b;
      AllEntriesAppend(c, a[1..], b);
    }
  }

  function FirstFew<T>(s: seq<T>, limit: int): seq<T> {
    if 0 < limit < |s| then s[..limit] else s
  }

  /** Results that fill the limit, or after which nothing is left, are the first few of everything. */
  lemma FirstFewOfPrefix<T>(results: seq<T>, left: seq<T>, limit: int)
    requires left == [] || (limit > 0 && |results| == limit)
    requires limit > 0 ==> |results| <= limit
    ensures FirstFew(results + left, limit) == results
  {
    if left == [] {
      assert results + left == results;
    }
  }

  /** Files in the order of their days, each holding only entries of its own day: what the writer
      leaves behind. */
  ghost predicate WellDated(c: Codec, files: seq<DayFile>) {
    && AllReadable(files)
    && (forall i :: 0 <= i < |files| ==> files[i].day.Some?)
    && (forall i, j :: 0 <= i < j < |files| ==> files[i].day.value < files[j].day.value)
    && (forall i :: 0 <= i < |files| ==> OfDay(EntriesOf(c, files[i]), files[i].day.value))
  }

  ghost predicate OfDay(entries: seq<Entry>, day: int) {
    forall e :: e in entries ==> DayOf(e.timestamp) == day
  }

  // ---------------------------------------------------------------- what is wanted, in which order

  /** The operation contains one of the alternatives, apart from the space around it. */
  ghost predicate Names(operation: string, alts: seq<string>) {
    exists j :: 0 <= j < |alts| && OccursIn(operation, TrimSpace(alts[j]))
  }

  ghost predicate OccursIn(operation: string, part: string) {
    exists i :: OccursAt(operation, part, i)
  }

  /** Recent enough, failed if that is asked for, and named by the pattern if there is one. */
  ghost predicate Wants(now: int, opts: QueryOptions, alts: seq<string>, e: Entry) {
    && (opts.since <= 0 || now - e.timestamp <= opts.since)
    && (opts.errorsOnly ==> e.error != "")
    && (opts.pattern == "" || Names(e.operation, alts))
  }

  /** The filters, for a pattern made of alternatives with bars between them, as every pattern is. */
  lemma KeepsWhatIsWanted(now: int, opts: QueryOptions, alts: seq<string>, e: Entry)
    requires alts != [] && WithoutChar(alts, '|') && opts.pattern == Join(alts, '|')
    ensures Keep(now, opts, e) <==> Wants(now, opts, alts, e)
  {
    SplitJoin(alts, '|');
    forall j | 0 <= j < |alts|
      ensures Contains(e.operation, TrimSpace(alts[j])) <==> OccursIn(e.operation, TrimSpace(alts[j]))
    {
      ContainsExactly(e.operation, TrimSpace(alts[j]));
    }
  }

  lemma EveryPatternHasAlternatives(pattern: string) returns (alts: seq<string>)
    ensures alts != [] && WithoutChar(alts, '|') && pattern == Join(alts, '|')
  {
    alts := Split(pattern, '|');
    SplitParts(pattern, '|');
    JoinSplit(pattern, '|');
  }

  /** `found` are the entries at the places `at`, going backwards, which are those of all that are kept. */
  ghost predicate NewestFirst(now: int, opts: QueryOptions, entries: seq<Entry>, found: seq<Entry>, at: seq<int>) {
    && |at| == |found|
    && (forall i :: 0 <= i < |at| ==> 0 <= at[i] < |entries| && found[i] == entries[at[i]])
    && (forall i, j :: 0 <= i < j < |at| ==> at[i] > at[j])
    && (forall k :: 0 <= k < |entries| ==> (k in at <==> Keep(now, opts, entries[k])))
  }

  lemma {:induction false} BackwardIsNewestFirst(now: int, opts: QueryOptions, entries: seq<Entry>)
      returns (at: seq<int>)
    ensures NewestFirst(now, opts, entries, Backward(now, opts, entries), at)
  {
    at := [];
    if entries != [] {
      var n := |entries| - 1;
      at := BackwardIsNewestFirst(now, opts, entries[..n]);
      NewestFirstSnoc(now, opts, entries[..n], Backward(now, opts, entries[..n]), at, entries[n]);
      LastOne(entries);
      if Keep(now, opts, entries[n]) {
        at := [n] + at;
      } else {
        assert Backward(now, opts, entries) == Backward(now, opts, entries[..n]);
      }
    }
  }

  lemma NewestFirstSnoc(now: int, opts: QueryOptions, entries: seq<Entry>, found: seq<Entry>, at: seq<int>, e: Entry)
    requires NewestFirst(now, opts, entries, found, at)
    ensures if Keep(now, opts, e) then NewestFirst(now, opts, entries + [e], [e] + found, [|entries|] + at)
            else NewestFirst(now, opts, entries + [e], found, at)
  {
    var all := entries + [e];
    assert all[|entries|] == e && forall k :: 0 <= k < |entries| ==> all[k] == entries[k];
    if Keep(now, opts, e) {
      NewestOneMore(now, opts, entries, found, at, e);
    }
  }

  lemma NewestOneMore(now: int, opts: QueryOptions, entries: seq<Entry>, found: seq<Entry>, at: seq<int>, e: Entry)
    requires NewestFirst(now, opts, entries, found, at) && Keep(now, opts, e)
    ensures NewestFirst(now, opts, entries + [e], [e] + found, [|entries|] + at)
  {
    var all, found', at' := entries + [e], [e] + found, [|entries|] + at;
    forall i | 0 <= i < |at'| ensures 0 <= at'[i] < |all| && found'[i] == all[at'[i]] {
      assert i > 0 ==> at'[i] == at[i - 1] && found'[i] == found[i - 1];
    }
    forall i, j | 0 <= i < j < |at'| ensures at'[i] > at'[j] {
      assert at'[j] == at[j - 1] && (i > 0 ==> at'[i] == at[i - 1]);
    }
    forall k | 0 <= k < |all| ensures k in at' <==> Keep(now, opts, all[k]) {
      assert k in at' <==> k == |entries| || k in at;
    }
  }

  /** The entries of a file are those of its lines that are not blank and decode, in order. */
  ghost predicate EntryLines(c: Codec, lines: seq<Line>, entries: seq<Entry>, at: seq<int>) {
    && |at| == |entries|
    && (forall i :: 0 <= i < |at| ==> 0 <= at[i] < |lines| && c.decode(lines[at[i]]) == Some(entries[i]))
    && (forall i, j :: 0 <= i < j < |at| ==> at[i] < at[j])
    && (forall k :: 0 <= k < |lines| ==> (k in at <==> lines[k] != "" && c.decode(lines[k]).Some?))
  }

  lemma {:induction false} EntriesAreOfLines(c: Codec, lines: seq<Line>) returns (at: seq<int>)
    ensures EntryLines(c, lines, Entries(c, lines), at)
  {
    at := [];
    if lines != [] {
      var n := |lines| - 1;
      at := EntriesAreOfLines(c, lines[..n]);
      EntryLinesSnoc(c, lines[..n], Entries(c, lines[..n]), at, lines[n]);
      LastOne(lines);
      if lines[n] != "" && c.decode(lines[n]).Some? {
        at := at + [n];
      } else {
        assert Entries(c, lines) == Entries(c, lines[..n]);
      }
    }
  }

  lemma EntryLinesSnoc(c: Codec, lines: seq<Line>, entries: seq<Entry>, at: seq<int>, line: Line)
    requires EntryLines(c, lines, entries, at)
    ensures if line != "" && c.decode(line).Some?
            then EntryLines(c, lines + [line], entries + [c.decode(line).value], at + [|lines|])
            else EntryLines(c, lines + [line], entries, at)
  {
    assert forall k :: 0 <= k < |lines| ==> (lines + [line])[k] == lines[k];
  }

  // ---------------------------------------------------------------- the early exit loses nothing

  lemma {:induction false} NoneKept(now: int, opts: QueryOptions, entries: seq<Entry>)
    requires forall e :: e in entries ==> !Keep(now, opts, e)
    ensures Backward(now, opts, entries) == []
  {
    if entries != [] {
      assert entries[|entries| - 1] in entries;
      NoneKept(now, opts, entries[..|entries| - 1]);
    }
  }

  /** Go's endOfDay.Before(cutoff). */
  predicate EntirelyBefore(day: int, cutoff: int) {
    day * DAY + (DAY - 1) < cutoff
  }

  lemma EntryOfOldDay(timestamp: int, day: int, cutoff: int)
    requires DayOf(timestamp) <= day && EntirelyBefore(day, cutoff)
    ensures timestamp < cutoff
  {
    assert timestamp < (timestamp / DAY + 1) * DAY;
    assert (timestamp / DAY + 1) * DAY <= (day + 1) * DAY;
  }

  /** The file's day is over before the cutoff, so the scan stops. */
  predicate Old(now: int, opts: QueryOptions, f: DayFile) {
    opts.since > 0 && f.day.Some? && EntirelyBefore(f.day.value, now - opts.since)
  }

  lemma OldFileHoldsNothing(now: int, opts: QueryOptions, entries: seq<Entry>, day: int, last: int)
    requires OfDay(entries, day) && day <= last && opts.since > 0 && EntirelyBefore(last, now - opts.since)
    ensures Backward(now, opts, entries) == []
  {
    forall e | e in entries ensures !Keep(now, opts, e) {
      EntryOfOldDay(e.timestamp, last, now - opts.since);
    }
    NoneKept(now, opts, entries);
  }

  /** Once a file lies before the cutoff, so does everything in it and in the files before it. */
  lemma {:induction false} OlderFilesHoldNothing(c: Codec, now: int, opts: QueryOptions, files: seq<DayFile>)
    requires WellDated(c, files) && files != [] && Old(now, opts, files[|files| - 1])
    ensures Backward(now, opts, AllEntries(c, files)) == []
  {
    var first, rest := files[0], files[1..];
    OldFileHoldsNothing(now, opts, EntriesOf(c, first), first.day.value, files[|files| - 1].day.value);
    BackwardAppend(now, opts, EntriesOf(c, first), AllEntries(c, rest));
    if rest == [] {
      assert Backward(now, opts, AllEntries(c, rest)) == [];
    } else {
      WellDatedPart(c, files, 1, |files|);
      assert files[1..|files|] == rest;
      OlderFilesHoldNothing(c, now, opts, rest);
    }
  }

  lemma WellDatedPart(c: Codec, files: seq<DayFile>, i: nat, j: nat)
    requires WellDated(c, files) && i <= j <= |files|
    ensures WellDated(c, files[i..j])
  {
  }

  lemma BackwardFrom(now: int, opts: QueryOptions, entries: seq<Entry>, i: nat)
    requires i < |entries|
    ensures Backward(now, opts, entries[i..])
         == Backward(now, opts, entries[i + 1..]) + if Keep(now, opts, entries[i]) then [entries[i]] else []
  {
    var e := entries[i];
    assert entries[i..] == [e] + entries[i + 1..];
    BackwardAppend(now, opts, [e], entries[i + 1..]);
    assert [e][..0] == [];
  }

  lemma BackwardSplit(now: int, opts: QueryOptions, entries: seq<Entry>, i: nat)
    requires i <= |entries|
    ensures Backward(now, opts, entries) == Backward(now, opts, entries[i..]) + Backward(now, opts, entries[..i])
  {
    assert entries == entries[..i] + entries[i..];
    BackwardAppend(now, opts, entries[..i], entries[i..]);
  }

  /** The filters of the loop, one `continue` each. */
  method Wanted(now: int, opts: QueryOptions, e: Entry) returns (r: bool)
    ensures r == Keep(now, opts, e)
  {
    if opts.since > 0 && e.timestamp < now - opts.since {
      return false;
    }
    if opts.errorsOnly && e.error == "" {
      return false;
    }
    return MatchesPattern(e.operation, opts.pattern);
  }

  /** The results once the entries from `i` on have been looked at. */
  ghost predicate ScannedTo(now: int, opts: QueryOptions, entries: seq<Entry>, soFar: seq<Entry>, i: nat,
                            results: seq<Entry>)
    requires i <= |entries|
  {
    results == soFar + Backward(now, opts, entries[i..])
  }

  lemma ScanNext(now: int, opts: QueryOptions, entries: seq<Entry>, soFar: seq<Entry>, i: nat, results: seq<Entry>)
    requires i < |entries| && ScannedTo(now, opts, entries, soFar, i + 1, results)
    ensures ScannedTo(now, opts, entries, soFar, i, results + if Keep(now, opts, entries[i]) then [entries[i]] else [])
  {
    BackwardFrom(now, opts, entries, i);
  }

  lemma ScanFull(now: int, opts: QueryOptions, entries: seq<Entry>, soFar: seq<Entry>, i: nat, results: seq<Entry>)
    requires i <= |entries| && ScannedTo(now, opts, entries, soFar, i, results)
    ensures soFar + Backward(now, opts, entries) == results + Backward(now, opts, entries[..i])
  {
    BackwardSplit(now, opts, entries, i);
  }

  /** One file, from its end, until the limit is reached. */
  method ScanFile(now: int, opts: QueryOptions, entries: seq<Entry>, soFar: seq<Entry>)
    returns (results: seq<Entry>, full: bool)
    requires opts.limit > 0 ==> |soFar| < opts.limit
    ensures results == FirstFew(soFar + Backward(now, opts, entries), opts.limit)
    ensures full <==> opts.limit > 0 && |results| == opts.limit
  {
    results, full := soFar, false;
    var i := |entries|;
    assert soFar + [] == soFar;
    while i > 0
      invariant 0 <= i <= |entries| && ScannedTo(now, opts, entries, soFar, i, results)
      invariant opts.limit > 0 ==> |results| < opts.limit
    {
      i := i - 1;
      ScanNext(now, opts, entries, soFar, i, results);
      var wanted := Wanted(now, opts, entries[i]);
      if wanted {
        results := results + [entries[i]];
        if opts.limit > 0 && |results| >= opts.limit {
          ScanFull(now, opts, entries, soFar, i, results);
          FirstFewOfPrefix(results, Backward(now, opts, entries[..i]), opts.limit);
          return results, true;
        }
      }
    }
    ScanFull(now, opts, entries, soFar, 0, results);
    FirstFewOfPrefix(results, [], opts.limit);
  }

  /** The files from `n` on were opened: readable, and none of them old. */
  ghost predicate Opened(now: int, opts: QueryOptions, files: seq<DayFile>, n: nat) {
    n <= |files| && forall i :: n <= i < |files| ==> files[i].content.File? && !Old(now, opts, files[i])
  }

  /** What the files from `n` on have to offer, newest first. */
  function Offer(c: Codec, now: int, opts: QueryOptions, files: seq<DayFile>, n: nat): seq<Entry>
    requires n <= |files|
  {
    Backward(now, opts, AllEntries(c, files[n..]))
  }

  ghost predicate Scanned(c: Codec, now: int, opts: QueryOptions, files: seq<DayFile>, n: nat, results: seq<Entry>) {
    && Opened(now, opts, files, n) && results == Offer(c, now, opts, files, n)
    && (opts.limit > 0 ==> |results| < opts.limit)
  }

  /** The scan ends well at `n`: with the first few of what the files from there on offer, because there is
      no older file, because the next one is old, or because the limit is reached. */
  ghost predicate Stops(c: Codec, now: int, opts: QueryOptions, files: seq<DayFile>, n: nat, results: seq<Entry>) {
    && Opened(now, opts, files, n) && results == FirstFew(Offer(c, now, opts, files, n), opts.limit)
    && (n == 0 || Old(now, opts, files[n - 1]) || (opts.limit > 0 && |results| == opts.limit))
  }

  /** The scan fails at an unreadable file that it has to look at. */
  ghost predicate Fails(c: Codec, now: int, opts: QueryOptions, files: seq<DayFile>, n: nat) {
    && 0 < n <= |files| && Scanned(c, now, opts, files, n, Offer(c, now, opts, files, n))
    && files[n - 1].content.Unreadable? && !Old(now, opts, files[n - 1])
  }

  lemma OfferNext(c: Codec, now: int, opts: QueryOptions, files: seq<DayFile>, n: nat)
    requires n < |files|
    ensures Offer(c, now, opts, files, n)
              == Offer(c, now, opts, files, n + 1) + Backward(now, opts, EntriesOf(c, files[n]))
  {
    assert files[n..][1..] == files[n + 1..];
    BackwardAppend(now, opts, EntriesOf(c, files[n]), AllEntries(c, files[n + 1..]));
  }

  method VisitFile(c: Codec, files: seq<DayFile>, i: nat, now: int, opts: QueryOptions, soFar: seq<Entry>)
    returns (results: seq<Entry>, full: bool)
    requires i < |files| && files[i].content.File? && !Old(now, opts, files[i])
    requires Scanned(c, now, opts, files, i + 1, soFar)
    ensures if full then Stops(c, now, opts, files, i, results) else Scanned(c, now, opts, files, i, results)
  {
    var entries := ReadFile(c, files[i].content.lines);
    OfferNext(c, now, opts, files, i);
    results, full := ScanFile(now, opts, entries, soFar);
  }

  /** On all files: the results are those of the point where the scan ends, and an error is one that the
      scan has to run into. */
  method Query(c: Codec, files: seq<DayFile>, now: int, opts: QueryOptions) returns (ok: bool, results: seq<Entry>)
    ensures ok ==> exists n: nat :: Stops(c, now, opts, files, n, results)
    ensures !ok ==> results == [] && exists n: nat :: Fails(c, now, opts, files, n)
  {
    ok, results := true, [];
    var i := |files|;
    while i > 0
      invariant 0 <= i <= |files|
      invariant Scanned(c, now, opts, files, i, results)
    {
      if Old(now, opts, files[i - 1]) {
        assert Stops(c, now, opts, files, i, results);
        return;
      }
      if files[i - 1].content.Unreadable? {
        assert Fails(c, now, opts, files, i);
        return false, [];
      }
      i := i - 1;
      var full;
      results, full := VisitFile(c, files, i, now, opts, results);
      if full {
        return;
      }
    }
    assert Stops(c, now, opts, files, 0, results);
  }

  /** An unreadable file fails the query only if its name tells no day, or there is no cutoff, or its day is not
      over before the cutoff. */
  lemma OldFilesDoNotFail(c: Codec, now: int, opts: QueryOptions, files: seq<DayFile>, n: nat)
    requires Fails(c, now, opts, files, n)
    ensures files[n - 1].content.Unreadable?
    ensures opts.since > 0 && files[n - 1].day.Some? ==> (files[n - 1].day.value + 1) * DAY > now - opts.since
  {
  }

  lemma OfferSplit(c: Codec, now: int, opts: QueryOptions, files: seq<DayFile>, n: nat)
    requires n <= |files|
    ensures Backward(now, opts, AllEntries(c, files)) ==
            Offer(c, now, opts, files, n) + Backward(now, opts, AllEntries(c, files[..n]))
  {
    assert files == files[..n] + files[n..];
    AllEntriesAppend(c, files[..n], files[n..]);
    BackwardAppend(now, opts, AllEntries(c, files[..n]), AllEntries(c, files[n..]));
  }

  lemma NothingBefore(c: Codec, now: int, opts: QueryOptions, files: seq<DayFile>, n: nat)
    requires WellDated(c, files) && 0 < n <= |files| && Old(now, opts, files[n - 1])
    ensures Backward(now, opts, AllEntries(c, files[..n])) == []
  {
    WellDatedPart(c, files, 0, n);
    assert files[0..n] == files[..n];
    OlderFilesHoldNothing(c, now, opts, files[..n]);
  }

  lemma FirstFewOfMore<T>(a: seq<T>, b: seq<T>, limit: int)
    requires b == [] || (limit > 0 && |FirstFew(a, limit)| == limit)
    ensures FirstFew(a + b, limit) == FirstFew(a, limit)
  {
    if b == [] {
      assert a + b == a;
    }
  }

  /** On files as the writer leaves them, and without a cutoff on any files at all, the early exits lose
      nothing: the query returns exactly the first `limit` kept entries of the full backward scan. */
  lemma EarlyExitLosesNothing(c: Codec, now: int, opts: QueryOptions, files: seq<DayFile>, n: nat, results: seq<Entry>)
    requires Stops(c, now, opts, files, n, results) && (WellDated(c, files) || opts.since <= 0)
    ensures results == FirstFew(Backward(now, opts, AllEntries(c, files)), opts.limit)
  {
    OfferSplit(c, now, opts, files, n);
    if n == 0 {
      assert files[..0] == [];
    } else if Old(now, opts, files[n - 1]) {
      NothingBefore(c, now, opts, files, n);
    }
    FirstFewOfMore(Offer(c, now, opts, files, n), Backward(now, opts, AllEntries(c, files[..n])), opts.limit);
  }

  /** What a query that ends well returns: of all kept entries, newest first, all of them or as many as the limit
      allows. */
  lemma QueryFinds(c: Codec, now: int, opts: QueryOptions, files: seq<DayFile>, n: nat, results: seq<Entry>)
      returns (all: seq<Entry>, at: seq<int>)
    requires Stops(c, now, opts, files, n, results) && (WellDated(c, files) || opts.since <= 0)
    ensures NewestFirst(now, opts, AllEntries(c, files), all, at)
    ensures results <= all && |results| == if 0 < opts.limit < |all| then opts.limit else |all|
  {
    EarlyExitLosesNothing(c, now, opts, files, n, results);
    all := Backward(now, opts, AllEntries(c, files));
    at := BackwardIsNewestFirst(now, opts, AllEntries(c, files));
  }

  /** What EveryFileVerifies guarantees of a day file is what the query needs of it. */
  lemma {:induction false} WriterFilesAreWellDated(c: Codec, day: int, lines: seq<Line>)
    requires forall l :: l in lines && l != "" ==> c.decode(l).Some? && DayOf(c.decode(l).value.timestamp) == day
    ensures OfDay(Entries(c, lines), day)
  {
    if lines != [] {
      assert lines[|lines| - 1] in lines;
      WriterFilesAreWellDated(c, day, lines[..|lines| - 1]);
    }
  }

  ghost function DayFiles(disk: map<int, seq<Line>>, days: seq<int>): seq<DayFile>
    requires forall i :: 0 <= i < |days| ==> days[i] in disk
  {
    seq(|days|, i requires 0 <= i < |days| => DayFile(Some(days[i]), File(disk[days[i]])))
  }

  lemma DayFileIsDated(c: Codec, disk: map<int, seq<Line>>, day: int)
    requires DiskOk(c, disk) && day in disk
    ensures OfDay(EntriesOf(c, DayFile(Some(day), File(disk[day]))), day)
  {
    assert FileOk(c, day, disk[day]);
    WriterFilesAreWellDated(c, day, disk[day]);
  }

  lemma SeparateChainsAreWellDated(c: Codec, disk: map<int, seq<Line>>, days: seq<int>)
    requires DiskOk(c, disk) && Lists(days, disk.Keys) && Ascending(days)
    ensures WellDated(c, DayFiles(disk, days))
  {
    var files := DayFiles(disk, days);
    forall i | 0 <= i < |files| ensures OfDay(EntriesOf(c, files[i]), files[i].day.value) {
      DayFileIsDated(c, disk, days[i]);
    }
  }

  /** Whatever the writer went through, the directory it leaves is one on which Query is exact. */
  lemma WriterOutputIsWellDated(c: Codec, maxFiles: nat, disk: map<int, seq<Line>>, events: seq<Event>,
                                left: map<int, seq<Line>>)
    requires Lawful(c) && DiskOk(c, disk)
    requires left == Run(c, maxFiles, Idle(disk), events).disk
    ensures Lists(Sorted(left.Keys), left.Keys) && WellDated(c, DayFiles(left, Sorted(left.Keys)))
  {
    EveryFileVerifies(c, maxFiles, disk, events);
    SortedListsTheSet(left.Keys);
    SeparateChainsAreWellDated(c, left, Sorted(left.Keys));
  }
}
