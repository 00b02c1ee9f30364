/** The writer loop of the activity log (internal/activitylog/log.go): day rotation, seeding of the
    chain from the file being opened, cleanup of old files, restarts.

    A day is the UTC day number of a timestamp and stands for the file `activity-<day>.jsonl`; the
    file names sort as the days do.  The disk maps days to the lines of their files.
 */
module ActivityWriter {
  import opened Common
  import opened SortedSets
  import opened ActivityChain

  const DAY: int := 86_400_000_000_000  // nanoseconds

  function DayOf(timestamp: int): int {
    timestamp / DAY
  }

  /** Timestamps are in nanoseconds, and a day has 24 hours. */
  lemma DaysAreDays(timestamp: int, day: int)
    ensures DayOf(timestamp) == day <==>
              day * 24 * 60 * 60 * 1_000_000_000 <= timestamp < (day + 1) * 24 * 60 * 60 * 1_000_000_000
  {
  }

  /** The open file: none, one that is on disk, or one that cleanup has unlinked. */
  datatype Handle = NoFile | OnDisk | Unlinked

  /** `currentDay` is None before the first successful open. */
  datatype State = State(disk: map<int, seq<Line>>, currentDay: Option<int>, handle: Handle, prevHash: string)

  /** A writer that has just started. */
  function Idle(disk: map<int, seq<Line>>): State {
    State(disk, None, NoFile, "")
  }

  // ---------------------------------------------------------------- one step

  function ToSet(s: seq<int>): set<int> {
    set x | x in s
  }

  function Oldest(sorted: seq<int>, maxFiles: nat): set<int> {
    if |sorted| <= maxFiles then {} else ToSet(sorted[..|sorted| - maxFiles])
  }

  /** The files cleanup wants to remove: the oldest ones beyond `maxFiles`. */
  ghost function Doomed(days: set<int>, maxFiles: nat): set<int> {
    Oldest(Sorted(days), maxFiles)
  }

  lemma PrefixIsSmaller(sorted: seq<int>, n: nat, x: int, y: int)
    requires n <= |sorted| && Ascending(sorted)
    requires x in sorted[..n] && y in sorted && y !in sorted[..n]
    ensures x < y
  {
    var i :| 0 <= i < n && x == sorted[i];
    var j :| 0 <= j < |sorted| && y == sorted[j];
    assert j >= n;
  }

  /** `doomed` are the oldest of `days`, just enough of them to leave `maxFiles`. */
  ghost predicate LeavesTheNewest(days: set<int>, doomed: set<int>, maxFiles: nat) {
    && doomed <= days
    && |days - doomed| == (if |days| <= maxFiles then |days| else maxFiles)
    && forall x, y :: x in doomed && y in days - doomed ==> x < y
  }

  lemma PrefixLeavesTheRest(days: set<int>, sorted: seq<int>, n: nat)
    requires Lists(sorted, days) && n <= |sorted| && Ascending(sorted[..n])
    ensures ToSet(sorted[..n]) <= days && |days - ToSet(sorted[..n])| == |days| - n
  {
    DistinctToSet(sorted[..n]);
  }

  lemma PrefixIsOlder(days: set<int>, sorted: seq<int>, n: nat)
    requires Lists(sorted, days) && Ascending(sorted) && n <= |sorted|
    ensures forall x, y :: x in ToSet(sorted[..n]) && y in days - ToSet(sorted[..n]) ==> x < y
  {
    forall x, y | x in ToSet(sorted[..n]) && y in days - ToSet(sorted[..n]) ensures x < y {
      PrefixIsSmaller(sorted, n, x, y);
    }
  }

  lemma OldestLeavesTheNewest(days: set<int>, sorted: seq<int>, maxFiles: nat)
    requires Lists(sorted, days) && Ascending(sorted)
    ensures LeavesTheNewest(days, Oldest(sorted, maxFiles), maxFiles)
  {
    if |sorted| <= maxFiles {
      assert days - {} == days;
    } else {
      var n := |sorted| - maxFiles;
      PrefixLeavesTheRest(days, sorted, n);
      PrefixIsOlder(days, sorted, n);
    }
  }

  /** Cleanup brings the number of files down to the limit and gives up the oldest ones for it. */
  lemma DoomedAreTheOldest(days: set<int>, maxFiles: nat)
    ensures LeavesTheNewest(days, Doomed(days, maxFiles), maxFiles)
  {
    SortedListsTheSet(days);
    OldestLeavesTheNewest(days, Sorted(days), maxFiles);
  }

  lemma AddOne(s: set<int>, x: int)
    ensures |s + {x}| == if x in s then |s| else |s| + 1
  {
    if x in s {
      assert s + {x} == s;
    }
  }

  lemma {:induction false} DistinctToSet(s: seq<int>)
    requires Ascending(s)
    ensures |ToSet(s)| == |s|
  {
    if s == [] {
      assert ToSet(s) == {};
    } else {
      var init, last := s[..|s| - 1], s[|s| - 1];
      DistinctToSet(init);
      assert ToSet(s) == ToSet(init) + {last} by {
        assert s == init + [last];
      }
      assert last !in init;
      AddOne(ToSet(init), last);
    }
  }

  /** Removal of day files, by cleanup or from outside; an open file may lose its name. */
  ghost function Unlink(s: State, days: set<int>): State {
    s.(disk := s.disk - days,
       handle := if s.handle == OnDisk && s.currentDay.Some? && s.currentDay.value in days then Unlinked else s.handle)
  }

  lemma RemovableSnoc(s: seq<int>, x: int, stuck: set<int>)
    ensures ToSet(s + [x]) - stuck == ToSet(s) - stuck + if x in stuck then {} else {x}
  {
  }

  lemma UnlinkNothing(s: State)
    ensures Unlink(s, {}) == s
  {
    assert s.disk - {} == s.disk;
  }

  lemma UnlinkOneMore(s: State, days: set<int>, day: int)
    ensures Unlink(Unlink(s, days), {day}) == Unlink(s, days + {day})
  {
    assert s.disk - days - {day} == s.disk - (days + {day});
  }

  ghost function OpenDay(c: Codec, s: State, day: int, ok: bool): State {
    if !ok then s.(handle := NoFile)
    else
      var lines := if day in s.disk then s.disk[day] else [];
      State(s.disk[day := lines], Some(day), OnDisk, LastHash(c, lines, ""))
  }

  ghost function Append(c: Codec, s: State, e: Entry): State {
    match c.encode(e.(prevHash := s.prevHash))
    case None => s
    case Some(line) =>
      s.(prevHash := c.hash(line),
         disk := if s.handle == OnDisk && s.currentDay.Some? && s.currentDay.value in s.disk
                 then s.disk[s.currentDay.value := s.disk[s.currentDay.value] + [line]] else s.disk)
  }

  /** `openOk` tells whether the open succeeds, `stuck` which files cannot be removed. */
  ghost function WriteEntryStep(c: Codec, maxFiles: nat, s: State, e: Entry, openOk: bool, stuck: set<int>): State {
    var day := DayOf(e.timestamp);
    var current :=
      if s.currentDay == Some(day) then s
      else
        var o := OpenDay(c, s, day, openOk);
        Unlink(o, Doomed(o.disk.Keys, maxFiles) - stuck);
    if current.handle == NoFile then current else Append(c, current, e)
  }

  // ---------------------------------------------------------------- the writer itself

  class Log {
    const maxFiles: nat
    const codec: Codec

    var disk: map<int, seq<Line>>
    var currentDay: Option<int>
    var handle: Handle
    var prevHash: string

    ghost function Snapshot(): State
      reads this
    {
      State(disk, currentDay, handle, prevHash)
    }

    ghost predicate Valid()
      reads this
    {
      handle == OnDisk ==> currentDay.Some? && currentDay.value in disk
    }

    /** A writer starts with no file, whatever earlier writers left on disk. */
    constructor (codec: Codec, maxFiles: nat, disk: map<int, seq<Line>>)
      ensures Valid() && this.codec == codec && this.maxFiles == maxFiles
      ensures Snapshot() == Idle(disk)
    {
      this.codec, this.maxFiles := codec, maxFiles;
      this.disk, currentDay, handle, prevHash := disk, None, NoFile, "";
    }

    method OpenFileForDay(day: int, ok: bool)
      requires Valid()
      modifies this
      ensures Valid() && Snapshot() == OpenDay(codec, old(Snapshot()), day, ok)
    {
      if !ok {
        handle := NoFile;
        return;
      }
      if day !in disk {
        disk := disk[day := []];
      }
      handle, currentDay := OnDisk, Some(day);
      prevHash := LastHashFromFile(codec, File(disk[day]));
    }

    /** os.Remove on one file. */
    method RemoveFile(day: int)
      requires Valid()
      modifies this
      ensures Valid() && Snapshot() == Unlink(old(Snapshot()), {day})
    {
      disk := disk - {day};
      if handle == OnDisk && currentDay == Some(day) {
        handle := Unlinked;
      }
    }

    method RemoveFiles(toRemove: seq<int>, stuck: set<int>)
      requires Valid()
      modifies this
      ensures Valid() && Snapshot() == Unlink(old(Snapshot()), ToSet(toRemove) - stuck)
    {
      ghost var start := Snapshot();
      UnlinkNothing(start);
      ghost var removed: set<int> := {};
      for k := 0 to |toRemove|
        invariant Valid() && removed == ToSet(toRemove[..k]) - stuck
        invariant Snapshot() == Unlink(start, removed)
      {
        var day := toRemove[k];
        RemovableSnoc(toRemove[..k], day, stuck);
        assert toRemove[..k + 1] == toRemove[..k] + [day];
        if day !in stuck {
          UnlinkOneMore(start, removed, day);
          removed := removed + {day};
          RemoveFile(day);
        }
      }
      assert toRemove[..|toRemove|] == toRemove;
    }

    method Cleanup(stuck: set<int>)
      requires Valid()
      modifies this
      ensures Valid() && Snapshot() == Unlink(old(Snapshot()), Doomed(old(disk.Keys), maxFiles) - stuck)
    {
      UnlinkNothing(Snapshot());
      var logFiles := Sort(disk.Keys);
      if |logFiles| <= maxFiles {
        assert {} - stuck == {};
        return;
      }
      RemoveFiles(logFiles[..|logFiles| - maxFiles], stuck);
    }

    method WriteEntry(e: Entry, openOk: bool, stuck: set<int>)
      requires Valid()
      modifies this
      ensures Valid() && Snapshot() == WriteEntryStep(codec, maxFiles, old(Snapshot()), e, openOk, stuck)
    {
      var day := DayOf(e.timestamp);
      if currentDay != Some(day) {
        OpenFileForDay(day, openOk);
        Cleanup(stuck);
      }
      if handle == NoFile {
        return;
      }
      match codec.encode(e.(prevHash := prevHash)) {
        case None =>
        case Some(line) =>
          prevHash := codec.hash(line);
          if handle == OnDisk {
            disk := disk[currentDay.value := disk[currentDay.value] + [line]];
          }
      }
    }
  }

  // ---------------------------------------------------------------- every run

  datatype Event =
    | Write(entry: Entry, openOk: bool, stuck: set<int>)
    | Restart
    | Remove(days: set<int>)

  ghost function Step(c: Codec, maxFiles: nat, s: State, ev: Event): State {
    match ev
    case Write(e, openOk, stuck) => WriteEntryStep(c, maxFiles, s, e, openOk, stuck)
    case Restart => Idle(s.disk)
    case Remove(days) => Unlink(s, days)
  }

  ghost function Run(c: Codec, maxFiles: nat, s: State, events: seq<Event>): State {
    if events == [] then s else Step(c, maxFiles, Run(c, maxFiles, s, events[..|events| - 1]), events[|events| - 1])
  }

  /** A day file is a chain of its own and holds only entries of its day. */
  ghost predicate FileOk(c: Codec, day: int, lines: seq<Line>) {
    && Chained(c, NonEmpty(lines), "")
    && forall l :: l in lines && l != "" ==> c.decode(l).Some? && DayOf(c.decode(l).value.timestamp) == day
  }

  ghost predicate DiskOk(c: Codec, disk: map<int, seq<Line>>) {
    forall d :: d in disk ==> FileOk(c, d, disk[d])
  }

  /** The hash in hand is the one the open file ends with. */
  ghost predicate Inv(c: Codec, s: State) {
    && DiskOk(c, s.disk)
    && (s.handle == OnDisk ==>
          s.currentDay.Some? && s.currentDay.value in s.disk
            && s.prevHash == LastHash(c, s.disk[s.currentDay.value], ""))
  }

  lemma AppendKeepsInv(c: Codec, s: State, e: Entry)
    requires Lawful(c) && Inv(c, s) && (s.handle == OnDisk ==> s.currentDay == Some(DayOf(e.timestamp)))
    ensures Inv(c, Append(c, s, e))
  {
    var entry := e.(prevHash := s.prevHash);
    if c.encode(entry).Some? && s.handle == OnDisk {
      var line, day := c.encode(entry).value, s.currentDay.value;
      var lines := s.disk[day];
      assert FileOk(c, day, lines);
      NonEmptySnoc(lines, line);
      ChainedSnoc(c, NonEmpty(lines), line, "");
      assert FileOk(c, day, lines + [line]);
    }
  }

  lemma StepKeepsInv(c: Codec, maxFiles: nat, s: State, ev: Event)
    requires Lawful(c) && Inv(c, s)
    ensures Inv(c, Step(c, maxFiles, s, ev))
  {
    if ev.Write? {
      var e, day := ev.entry, DayOf(ev.entry.timestamp);
      if s.currentDay == Some(day) {
        AppendKeepsInv(c, s, e);
      } else {
        var o := OpenDay(c, s, day, ev.openOk);
        assert day !in s.disk ==> FileOk(c, day, []);
        assert Inv(c, o);
        var u := Unlink(o, Doomed(o.disk.Keys, maxFiles) - ev.stuck);
        assert Inv(c, u);
        if u.handle != NoFile {
          AppendKeepsInv(c, u, e);
        }
      }
    }
  }

  lemma {:induction false} RunKeepsInv(c: Codec, maxFiles: nat, s: State, events: seq<Event>)
    requires Lawful(c) && Inv(c, s)
    ensures Inv(c, Run(c, maxFiles, s, events))
  {
    if events != [] {
      RunKeepsInv(c, maxFiles, s, events[..|events| - 1]);
      StepKeepsInv(c, maxFiles, Run(c, maxFiles, s, events[..|events| - 1]), events[|events| - 1]);
    }
  }

  /** Whatever the order of the entries' days, the restarts, the failed opens and the removals, every
      day file left on disk verifies on its own and holds only entries of its day. */
  lemma EveryFileVerifies(c: Codec, maxFiles: nat, disk: map<int, seq<Line>>, events: seq<Event>)
    requires Lawful(c) && DiskOk(c, disk)
    ensures DiskOk(c, Run(c, maxFiles, Idle(disk), events).disk)
  {
    RunKeepsInv(c, maxFiles, Idle(disk), events);
  }

  // ---------------------------------------------------------------- the directory check

  /** The lines of the files, in the order of their names. */
  ghost function Listing(disk: map<int, seq<Line>>, days: seq<int>): (r: seq<seq<Line>>)
    requires forall i :: 0 <= i < |days| ==> days[i] in disk
    ensures |r| == |days|
    ensures forall i :: 0 <= i < |r| ==> r[i] == disk[days[i]]
  {
    if days == [] then [] else [disk[days[0]]] + Listing(disk, days[1..])
  }

  ghost predicate OneDayHasEntries(disk: map<int, seq<Line>>) {
    forall d, d' :: d in disk && d' in disk && HasEntry(disk[d]) && HasEntry(disk[d']) ==> d == d'
  }

  lemma ListedAt(disk: map<int, seq<Line>>, days: seq<int>, d: int) returns (i: nat)
    requires Lists(days, disk.Keys) && d in disk
    ensures i < |days| && days[i] == d && Listing(disk, days)[i] == disk[d]
  {
    i :| 0 <= i < |days| && days[i] == d;
  }

  lemma OnePlace(files: seq<seq<Line>>, i: nat, j: nat)
    requires AtMostOneNonEmpty(files) && i < |files| && j < |files| && HasEntry(files[i]) && HasEntry(files[j])
    ensures i == j
  {
  }

  lemma OneDayInListing(disk: map<int, seq<Line>>, days: seq<int>)
    requires Lists(days, disk.Keys) && AtMostOneNonEmpty(Listing(disk, days))
    ensures OneDayHasEntries(disk)
  {
    forall d, d' | d in disk && d' in disk && HasEntry(disk[d]) && HasEntry(disk[d']) ensures d == d' {
      var i := ListedAt(disk, days, d);
      var j := ListedAt(disk, days, d');
      OnePlace(Listing(disk, days), i, j);
    }
  }

  lemma OneDayOnDisk(disk: map<int, seq<Line>>, days: seq<int>)
    requires Lists(days, disk.Keys) && Ascending(days) && OneDayHasEntries(disk)
    ensures AtMostOneNonEmpty(Listing(disk, days))
  {
    var files := Listing(disk, days);
    forall i, j | 0 <= i < j < |files| ensures !HasEntry(files[i]) || !HasEntry(files[j]) {
      assert days[i] < days[j];
    }
  }

  lemma ListingHasOneDay(disk: map<int, seq<Line>>, days: seq<int>)
    requires Lists(days, disk.Keys) && Ascending(days)
    ensures AtMostOneNonEmpty(Listing(disk, days)) <==> OneDayHasEntries(disk)
  {
    if AtMostOneNonEmpty(Listing(disk, days)) {
      OneDayInListing(disk, days);
    }
    if OneDayHasEntries(disk) {
      OneDayOnDisk(disk, days);
    }
  }

  lemma ListingIsChained(c: Codec, disk: map<int, seq<Line>>, days: seq<int>)
    requires DiskOk(c, disk) && forall i :: 0 <= i < |days| ==> days[i] in disk
    ensures EachChained(c, Listing(disk, days))
  {
    forall i | 0 <= i < |days| ensures Chained(c, NonEmpty(Listing(disk, days)[i]), "") {
      assert FileOk(c, days[i], disk[days[i]]);
    }
  }

  /** The files of a directory as the check reads them, in the order of their names. */
  ghost function LogFiles(disk: map<int, seq<Line>>): (r: seq<seq<Line>>)
    ensures |r| == |Sorted(disk.Keys)| == |disk.Keys|
    ensures forall i :: 0 <= i < |r| ==> Sorted(disk.Keys)[i] in disk && r[i] == disk[Sorted(disk.Keys)[i]]
  {
    SortedListsTheSet(disk.Keys);
    Listing(disk, Sorted(disk.Keys))
  }

  /** The directory check accepts what the writer leaves behind exactly when no two day files hold an
      entry: a second day always starts a chain of its own. */
  lemma DirectoryCheckOnWriterOutput(c: Codec, maxFiles: nat, disk: map<int, seq<Line>>, events: seq<Event>,
                                     left: map<int, seq<Line>>)
    requires Lawful(c) && DiskOk(c, disk)
    requires left == Run(c, maxFiles, Idle(disk), events).disk
    ensures Checked(c, Files(LogFiles(left))).valid <==> OneDayHasEntries(left)
  {
    EveryFileVerifies(c, maxFiles, disk, events);
    SortedListsTheSet(left.Keys);
    ListingIsChained(c, left, Sorted(left.Keys));
    SeparateFilesPass(c, LogFiles(left));
    ListingHasOneDay(left, Sorted(left.Keys));
  }

  lemma SeparateFilesPass(c: Codec, files: seq<seq<Line>>)
    requires Lawful(c) && EachChained(c, files)
    ensures Checked(c, Files(files)).valid <==> AtMostOneNonEmpty(files)
  {
    EachIsChained(c, files);
    DirectoryPassesExactlyWhenOneFile(c, files);
  }
}
