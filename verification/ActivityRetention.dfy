/** What the activity log keeps (internal/activitylog/log.go): which entries are in the day files after any
    number of writes, restarts and cleanups, and when an entry is lost. */
module ActivityRetention {
  import opened Common
  import opened SortedSets
  import opened ActivityChain
  import opened ActivityWriter

  function Content(disk: map<int, seq<Line>>, day: int): seq<Line> {
    if day in disk then disk[day] else []
  }

  /** The entries of a file, without the hashes that chain them. */
  function Payloads(c: Codec, lines: seq<Line>): seq<Entry> {
    if lines == [] then []
    else
      var line := lines[|lines| - 1];
      Payloads(c, lines[..|lines| - 1]) +
      if line != "" && c.decode(line).Some? then [c.decode(line).value.(prevHash := "")] else []
  }

  function PayloadOf(ev: Event, day: int): seq<Entry> {
    if ev.Write? && DayOf(ev.entry.timestamp) == day then [ev.entry.(prevHash := "")] else []
  }

  /** The entries of one day among the writes of a run, in the order they were written. */
  function EntriesOf(events: seq<Event>, day: int): seq<Entry> {
    if events == [] then []
    else
      EntriesOf(events[..|events| - 1], day) + PayloadOf(events[|events| - 1], day)
  }

  /** The days written to. */
  function DaysOf(events: seq<Event>): set<int> {
    set ev | ev in events && ev.Write? :: DayOf(ev.entry.timestamp)
  }

  ghost predicate Encodable(c: Codec, e: Entry) {
    forall p :: c.encode(e.(prevHash := p)).Some?
  }

  ghost predicate AllEncodable(c: Codec, events: seq<Event>) {
    forall i :: 0 <= i < |events| && events[i].Write? ==> Encodable(c, events[i].entry)
  }

  /** What a complete file of the day holds after a run. */
  function Expected(c: Codec, disk: map<int, seq<Line>>, events: seq<Event>, day: int): seq<Entry> {
    Payloads(c, Content(disk, day)) + EntriesOf(events, day)
  }

  /** The file of the day holds what was there before followed by all entries of the day, each once and in
      the order written. */
  ghost predicate Complete(c: Codec, maxFiles: nat, disk: map<int, seq<Line>>, events: seq<Event>, day: int) {
    Payloads(c, Content(Run(c, maxFiles, Idle(disk), events).disk, day)) == Expected(c, disk, events, day)
  }

  // ---------------------------------------------------------------- what a step loses

  /** The files on disk once a step has opened its file, if it opens one. */
  function AfterOpen(s: State, ev: Event): set<int> {
    if ev.Write? && s.currentDay != Some(DayOf(ev.entry.timestamp)) && ev.openOk
    then s.disk.Keys + {DayOf(ev.entry.timestamp)}
    else s.disk.Keys
  }

  /** The files that a step removes. */
  ghost function Unlinks(maxFiles: nat, s: State, ev: Event): set<int> {
    match ev
    case Write(e, openOk, stuck) =>
      if s.currentDay == Some(DayOf(e.timestamp)) then {} else Doomed(AfterOpen(s, ev), maxFiles) - stuck
    case Restart => {}
    case Remove(days) => days
  }

  /** A write of the day finds no file: its own open fails, or an earlier one has failed since the day's file
      was opened. */
  predicate Drops(s: State, ev: Event, day: int) {
    && ev.Write? && DayOf(ev.entry.timestamp) == day
    && if s.currentDay == Some(day) then s.handle == NoFile else !ev.openOk
  }

  /** A step loses something of what the file of the day should then hold. */
  ghost predicate Loses(maxFiles: nat, s: State, ev: Event, day: int, expected: seq<Entry>) {
    (day in Unlinks(maxFiles, s, ev) && expected != []) || Drops(s, ev, day)
  }

  ghost function StateAt(c: Codec, maxFiles: nat, disk: map<int, seq<Line>>, events: seq<Event>, k: nat): State
    requires k <= |events|
  {
    Run(c, maxFiles, Idle(disk), events[..k])
  }

  ghost predicate LosesAt(c: Codec, maxFiles: nat, disk: map<int, seq<Line>>, events: seq<Event>, k: nat, day: int)
    requires k < |events|
  {
    Loses(maxFiles, StateAt(c, maxFiles, disk, events, k), events[k], day, Expected(c, disk, events[..k + 1], day))
  }

  /** No step removes the file of the day when it should hold something, and no write of the day is dropped. */
  ghost predicate Intact(c: Codec, maxFiles: nat, disk: map<int, seq<Line>>, events: seq<Event>, day: int) {
    forall k :: 0 <= k < |events| ==> !LosesAt(c, maxFiles, disk, events, k, day)
  }

  lemma IntactSnoc(c: Codec, maxFiles: nat, disk: map<int, seq<Line>>, events: seq<Event>, ev: Event, day: int)
    ensures Intact(c, maxFiles, disk, events + [ev], day) <==>
              && Intact(c, maxFiles, disk, events, day)
              && !Loses(maxFiles, Run(c, maxFiles, Idle(disk), events), ev, day, Expected(c, disk, events + [ev], day))
  {
    var all := events + [ev];
    assert all[..|events|] == events && all[|events|] == ev && all[..|events| + 1] == all;
    forall k | 0 <= k < |events|
      ensures LosesAt(c, maxFiles, disk, all, k, day) <==> LosesAt(c, maxFiles, disk, events, k, day)
    {
      assert all[..k] == events[..k] && all[..k + 1] == events[..k + 1];
    }
    if Intact(c, maxFiles, disk, all, day) {
      assert !LosesAt(c, maxFiles, disk, all, |events|, day);
    }
  }

  // ---------------------------------------------------------------- one step, seen from one day

  /** An open file that is on disk is there under its day. */
  predicate Linked(s: State) {
    s.handle == OnDisk ==> s.currentDay.Some? && s.currentDay.value in s.disk
  }

  /** The state in which a write appends, if a file is open. */
  ghost function Current(c: Codec, maxFiles: nat, s: State, ev: Event): State
    requires ev.Write?
  {
    var day := DayOf(ev.entry.timestamp);
    if s.currentDay == Some(day) then s else Unlink(OpenDay(c, s, day, ev.openOk), Unlinks(maxFiles, s, ev))
  }

  lemma WriteAppendsToCurrent(c: Codec, maxFiles: nat, s: State, ev: Event)
    requires ev.Write?
    ensures var o := Current(c, maxFiles, s, ev);
            Step(c, maxFiles, s, ev) == if o.handle == NoFile then o else Append(c, o, ev.entry)
  {
    var day := DayOf(ev.entry.timestamp);
    assert s.currentDay != Some(day) ==> OpenDay(c, s, day, ev.openOk).disk.Keys == AfterOpen(s, ev);
  }

  lemma CurrentIsLinked(c: Codec, maxFiles: nat, s: State, ev: Event)
    requires Linked(s) && ev.Write?
    ensures var o := Current(c, maxFiles, s, ev);
            && Linked(o)
            && (o.handle != NoFile ==> o.currentDay == Some(DayOf(ev.entry.timestamp)) || s.currentDay == o.currentDay)
  {
  }

  lemma AppendIsLinked(c: Codec, o: State, e: Entry)
    requires Linked(o)
    ensures Linked(Append(c, o, e))
    ensures Append(c, o, e).disk.Keys == o.disk.Keys
    ensures Append(c, o, e).currentDay == o.currentDay && Append(c, o, e).handle == o.handle
  {
  }

  lemma StepIsLinked(c: Codec, maxFiles: nat, s: State, ev: Event)
    requires Linked(s)
    ensures Linked(Step(c, maxFiles, s, ev))
  {
    if ev.Write? {
      WriteAppendsToCurrent(c, maxFiles, s, ev);
      CurrentIsLinked(c, maxFiles, s, ev);
      AppendIsLinked(c, Current(c, maxFiles, s, ev), ev.entry);
    }
  }

  /** What opening and cleaning up leave of the day, and whether its file is then open. */
  lemma CurrentOfDay(c: Codec, maxFiles: nat, s: State, ev: Event, day: int)
    requires ev.Write?
    ensures var o := Current(c, maxFiles, s, ev);
            && Content(o.disk, day) == (if day in Unlinks(maxFiles, s, ev) then [] else Content(s.disk, day))
            && (o.handle != NoFile ==> o.currentDay == Some(DayOf(ev.entry.timestamp)))
            && (DayOf(ev.entry.timestamp) == day ==>
                  (o.handle == OnDisk <==> day !in Unlinks(maxFiles, s, ev) && Stores(s, ev, day)))
  {
  }

  /** A write of the day goes to the file of that day on disk, unless cleanup removes it at once. */
  predicate Stores(s: State, ev: Event, day: int) {
    && ev.Write? && DayOf(ev.entry.timestamp) == day
    && if s.currentDay == Some(day) then s.handle == OnDisk else ev.openOk
  }

  lemma PayloadsSnoc(c: Codec, lines: seq<Line>, line: Line, e: Entry)
    requires line != "" && c.decode(line) == Some(e)
    ensures Payloads(c, lines + [line]) == Payloads(c, lines) + [e.(prevHash := "")]
  {
    assert (lines + [line])[..|lines|] == lines;
  }

  lemma AppendAppends(c: Codec, o: State, e: Entry, day: int)
    requires Lawful(c) && Encodable(c, e) && Linked(o) && o.currentDay == Some(DayOf(e.timestamp))
    ensures Payloads(c, Content(Append(c, o, e).disk, day)) ==
            Payloads(c, Content(o.disk, day)) +
            if DayOf(e.timestamp) == day && o.handle == OnDisk then [e.(prevHash := "")] else []
  {
    var entry := e.(prevHash := o.prevHash);
    assert c.encode(entry).Some?;
    if DayOf(e.timestamp) == day && o.handle == OnDisk {
      PayloadsSnoc(c, o.disk[day], c.encode(entry).value, entry);
    }
  }

  /** What a step leaves in the file of the day. */
  lemma StepPayloads(c: Codec, maxFiles: nat, s: State, ev: Event, day: int)
    requires Lawful(c) && Linked(s) && (ev.Write? ==> Encodable(c, ev.entry))
    ensures Payloads(c, Content(Step(c, maxFiles, s, ev).disk, day)) ==
            if day in Unlinks(maxFiles, s, ev) then []
            else Payloads(c, Content(s.disk, day)) + if Stores(s, ev, day) then PayloadOf(ev, day) else []
  {
    if ev.Write? {
      WriteAppendsToCurrent(c, maxFiles, s, ev);
      CurrentIsLinked(c, maxFiles, s, ev);
      CurrentOfDay(c, maxFiles, s, ev, day);
      var o := Current(c, maxFiles, s, ev);
      if o.handle != NoFile {
        AppendAppends(c, o, ev.entry, day);
      }
    }
  }

  /** If the day is the current one, its file has not lost its name. */
  predicate NotUnlinked(s: State, day: int) {
    s.currentDay == Some(day) ==> s.handle != Unlinked
  }

  lemma StepKeepsName(c: Codec, maxFiles: nat, s: State, ev: Event, day: int)
    requires Linked(s) && NotUnlinked(s, day) && day !in Unlinks(maxFiles, s, ev)
    ensures NotUnlinked(Step(c, maxFiles, s, ev), day)
  {
    if ev.Write? {
      WriteAppendsToCurrent(c, maxFiles, s, ev);
      CurrentIsLinked(c, maxFiles, s, ev);
      AppendIsLinked(c, Current(c, maxFiles, s, ev), ev.entry);
    }
  }

  lemma StepSetsDay(c: Codec, maxFiles: nat, s: State, ev: Event, day: int)
    requires Step(c, maxFiles, s, ev).currentDay == Some(day)
    ensures s.currentDay == Some(day) || PayloadOf(ev, day) != []
  {
    if ev.Write? {
      WriteAppendsToCurrent(c, maxFiles, s, ev);
    }
  }

  // ---------------------------------------------------------------- when a day file is complete

  /** The file holds what it should, or less of it; the current day has been written. */
  ghost predicate Account(c: Codec, s: State, day: int, expected: seq<Entry>, intact: bool) {
    && Linked(s) && (s.currentDay == Some(day) ==> expected != [])
    && if intact then Payloads(c, Content(s.disk, day)) == expected && NotUnlinked(s, day)
       else |Payloads(c, Content(s.disk, day))| < |expected|
  }

  lemma AccountStep(c: Codec, maxFiles: nat, s: State, ev: Event, day: int, had: seq<Entry>, now: seq<Entry>,
                    intact: bool)
    requires Lawful(c) && (ev.Write? ==> Encodable(c, ev.entry))
    requires Account(c, s, day, had, intact) && now == had + PayloadOf(ev, day)
    ensures Account(c, Step(c, maxFiles, s, ev), day, now, intact && !Loses(maxFiles, s, ev, day, now))
  {
    var t := Step(c, maxFiles, s, ev);
    StepIsLinked(c, maxFiles, s, ev);
    StepPayloads(c, maxFiles, s, ev, day);
    if t.currentDay == Some(day) {
      StepSetsDay(c, maxFiles, s, ev, day);
    }
    if intact && day !in Unlinks(maxFiles, s, ev) {
      StepKeepsName(c, maxFiles, s, ev, day);
    }
  }

  lemma {:induction false} RunAccount(c: Codec, maxFiles: nat, disk: map<int, seq<Line>>, events: seq<Event>, day: int)
    requires Lawful(c) && AllEncodable(c, events)
    ensures Account(c, Run(c, maxFiles, Idle(disk), events), day, Expected(c, disk, events, day),
                    Intact(c, maxFiles, disk, events, day))
  {
    if events == [] {
      assert EntriesOf(events, day) == [];
    } else {
      var before, ev := events[..|events| - 1], events[|events| - 1];
      assert events == before + [ev];
      IntactSnoc(c, maxFiles, disk, before, ev, day);
      RunAccount(c, maxFiles, disk, before, day);
      Regroup(Payloads(c, Content(disk, day)), EntriesOf(before, day), PayloadOf(ev, day));
      AccountStep(c, maxFiles, Run(c, maxFiles, Idle(disk), before), ev, day, Expected(c, disk, before, day),
                  Expected(c, disk, events, day), Intact(c, maxFiles, disk, before, day));
    }
  }

  /** After any run, with failed opens, restarts, failed removals and removals from outside, a day file is
      complete if and only if it was never removed when it should hold something and no write of its day was
      dropped. */
  lemma CompleteExactly(c: Codec, maxFiles: nat, disk: map<int, seq<Line>>, events: seq<Event>, day: int)
    requires Lawful(c) && AllEncodable(c, events)
    ensures Complete(c, maxFiles, disk, events, day) <==> Intact(c, maxFiles, disk, events, day)
  {
    RunAccount(c, maxFiles, disk, events, day);
  }

  // ---------------------------------------------------------------- a file that is never removed

  ghost predicate RemovedAt(c: Codec, maxFiles: nat, disk: map<int, seq<Line>>, events: seq<Event>, k: nat, day: int)
    requires k < |events|
  {
    day in Unlinks(maxFiles, StateAt(c, maxFiles, disk, events, k), events[k])
  }

  /** No step of the run removes the file of the day. */
  ghost predicate StaysLinked(c: Codec, maxFiles: nat, disk: map<int, seq<Line>>, events: seq<Event>, day: int) {
    forall k :: 0 <= k < |events| ==> !RemovedAt(c, maxFiles, disk, events, k, day)
  }

  lemma StaysLinkedSnoc(c: Codec, maxFiles: nat, disk: map<int, seq<Line>>, events: seq<Event>, ev: Event, day: int)
    ensures StaysLinked(c, maxFiles, disk, events + [ev], day) <==>
              StaysLinked(c, maxFiles, disk, events, day)
              && day !in Unlinks(maxFiles, Run(c, maxFiles, Idle(disk), events), ev)
  {
    var all := events + [ev];
    assert all[..|events|] == events && all[|events|] == ev;
    forall k | 0 <= k < |events|
      ensures RemovedAt(c, maxFiles, disk, all, k, day) <==> RemovedAt(c, maxFiles, disk, events, k, day)
    {
      assert all[..k] == events[..k];
    }
    if StaysLinked(c, maxFiles, disk, all, day) {
      assert !RemovedAt(c, maxFiles, disk, all, |events|, day);
    }
  }

  ghost predicate DroppedAt(c: Codec, maxFiles: nat, disk: map<int, seq<Line>>, events: seq<Event>, k: nat, day: int)
    requires k < |events|
  {
    Drops(StateAt(c, maxFiles, disk, events, k), events[k], day)
  }

  /** No write of the day is dropped. */
  ghost predicate NothingDropped(c: Codec, maxFiles: nat, disk: map<int, seq<Line>>, events: seq<Event>, day: int) {
    forall k :: 0 <= k < |events| ==> !DroppedAt(c, maxFiles, disk, events, k, day)
  }

  /** A day file that no step removes is complete if and only if no write of its day was dropped: whatever
      the order of the days, the restarts and the other removals. */
  lemma KeptFileIsComplete(c: Codec, maxFiles: nat, disk: map<int, seq<Line>>, events: seq<Event>, day: int)
    requires Lawful(c) && AllEncodable(c, events) && StaysLinked(c, maxFiles, disk, events, day)
    ensures Complete(c, maxFiles, disk, events, day) <==> NothingDropped(c, maxFiles, disk, events, day)
  {
    CompleteExactly(c, maxFiles, disk, events, day);
    forall k | 0 <= k < |events|
      ensures LosesAt(c, maxFiles, disk, events, k, day) <==> DroppedAt(c, maxFiles, disk, events, k, day)
    {
      assert !RemovedAt(c, maxFiles, disk, events, k, day);
    }
  }

  ghost predicate OpensSucceed(events: seq<Event>) {
    forall i :: 0 <= i < |events| && events[i].Write? ==> events[i].openOk
  }

  lemma StepLeavesAFile(c: Codec, maxFiles: nat, s: State, ev: Event)
    requires (s.currentDay.Some? ==> s.handle != NoFile) && (ev.Write? ==> ev.openOk)
    ensures Step(c, maxFiles, s, ev).currentDay.Some? ==> Step(c, maxFiles, s, ev).handle != NoFile
  {
    if ev.Write? {
      WriteAppendsToCurrent(c, maxFiles, s, ev);
    }
  }

  lemma {:induction false} RunLeavesAFile(c: Codec, maxFiles: nat, disk: map<int, seq<Line>>, events: seq<Event>)
    requires OpensSucceed(events)
    ensures Run(c, maxFiles, Idle(disk), events).currentDay.Some? ==>
              Run(c, maxFiles, Idle(disk), events).handle != NoFile
  {
    if events != [] {
      var before := events[..|events| - 1];
      RunLeavesAFile(c, maxFiles, disk, before);
      StepLeavesAFile(c, maxFiles, Run(c, maxFiles, Idle(disk), before), events[|events| - 1]);
    }
  }

  /** When every open succeeds, no write is dropped. */
  lemma NothingDroppedWhenOpensSucceed(c: Codec, maxFiles: nat, disk: map<int, seq<Line>>, events: seq<Event>, day: int)
    requires OpensSucceed(events)
    ensures NothingDropped(c, maxFiles, disk, events, day)
  {
    forall k | 0 <= k < |events| ensures !DroppedAt(c, maxFiles, disk, events, k, day) {
      assert OpensSucceed(events[..k]);
      RunLeavesAFile(c, maxFiles, disk, events[..k]);
    }
  }

  // ---------------------------------------------------------------- below the limit

  ghost predicate NoneRemoved(events: seq<Event>) {
    forall i :: 0 <= i < |events| ==> !events[i].Remove?
  }

  lemma DaysSnoc(events: seq<Event>, ev: Event)
    ensures DaysOf(events + [ev]) == DaysOf(events) + if ev.Write? then {DayOf(ev.entry.timestamp)} else {}
  {
    var all := events + [ev];
    assert forall x :: x in all <==> x in events || x == ev;
  }

  /** A step keeps the files there are, opens at most one and removes some. */
  lemma StepKeys(c: Codec, maxFiles: nat, s: State, ev: Event)
    ensures Step(c, maxFiles, s, ev).disk.Keys == AfterOpen(s, ev) - Unlinks(maxFiles, s, ev)
  {
    if ev.Write? {
      WriteAppendsToCurrent(c, maxFiles, s, ev);
    }
  }

  lemma {:induction false} RunKeys(c: Codec, maxFiles: nat, disk: map<int, seq<Line>>, events: seq<Event>)
    ensures Run(c, maxFiles, Idle(disk), events).disk.Keys <= disk.Keys + DaysOf(events)
  {
    if events != [] {
      var before, ev := events[..|events| - 1], events[|events| - 1];
      assert events == before + [ev];
      RunKeys(c, maxFiles, disk, before);
      StepKeys(c, maxFiles, Run(c, maxFiles, Idle(disk), before), ev);
      DaysSnoc(before, ev);
    }
  }

  lemma SubsetSize(a: set<int>, b: set<int>)
    requires a <= b
    ensures |a| <= |b|
  {
    assert b == a + (b - a);
  }

  lemma NoneDoomed(days: set<int>, maxFiles: nat)
    requires |days| <= maxFiles
    ensures Doomed(days, maxFiles) == {}
  {
    SortedListsTheSet(days);
  }

  /** A step of a run that stays below the limit removes nothing. */
  lemma UnlinksNothing(c: Codec, maxFiles: nat, disk: map<int, seq<Line>>, before: seq<Event>, ev: Event)
    requires !ev.Remove? && |disk.Keys + DaysOf(before + [ev])| <= maxFiles
    ensures Unlinks(maxFiles, Run(c, maxFiles, Idle(disk), before), ev) == {}
  {
    if ev.Write? {
      var keys := AfterOpen(Run(c, maxFiles, Idle(disk), before), ev);
      DaysSnoc(before, ev);
      RunKeys(c, maxFiles, disk, before);
      SubsetSize(keys, disk.Keys + DaysOf(before + [ev]));
      NoneDoomed(keys, maxFiles);
    }
  }

  lemma FewerDays(disk: map<int, seq<Line>>, before: seq<Event>, ev: Event)
    ensures |disk.Keys + DaysOf(before)| <= |disk.Keys + DaysOf(before + [ev])|
  {
    DaysSnoc(before, ev);
    SubsetSize(disk.Keys + DaysOf(before), disk.Keys + DaysOf(before + [ev]));
  }

  lemma StillBelowTheLimit(c: Codec, maxFiles: nat, disk: map<int, seq<Line>>, before: seq<Event>, ev: Event, day: int)
    requires StaysLinked(c, maxFiles, disk, before, day)
    requires !ev.Remove? && |disk.Keys + DaysOf(before + [ev])| <= maxFiles
    ensures StaysLinked(c, maxFiles, disk, before + [ev], day)
  {
    UnlinksNothing(c, maxFiles, disk, before, ev);
    StaysLinkedSnoc(c, maxFiles, disk, before, ev, day);
  }

  lemma {:induction false} NothingUnlinkedBelowTheLimit(c: Codec, maxFiles: nat, disk: map<int, seq<Line>>,
                                                        events: seq<Event>, day: int)
    requires NoneRemoved(events) && |disk.Keys + DaysOf(events)| <= maxFiles
    ensures StaysLinked(c, maxFiles, disk, events, day)
  {
    if events != [] {
      var before, ev := events[..|events| - 1], events[|events| - 1];
      assert events == before + [ev];
      FewerDays(disk, before, ev);
      NothingUnlinkedBelowTheLimit(c, maxFiles, disk, before, day);
      StillBelowTheLimit(c, maxFiles, disk, before, ev, day);
    }
  }

  /** As long as the days on disk and the days written are no more than the limit, a day file is complete
      after any number of entries and restarts if and only if no write of its day was dropped. */
  lemma NothingIsLost(c: Codec, maxFiles: nat, disk: map<int, seq<Line>>, events: seq<Event>, day: int)
    requires Lawful(c) && AllEncodable(c, events) && NoneRemoved(events)
    requires |disk.Keys + DaysOf(events)| <= maxFiles
    ensures Complete(c, maxFiles, disk, events, day) <==> NothingDropped(c, maxFiles, disk, events, day)
  {
    NothingUnlinkedBelowTheLimit(c, maxFiles, disk, events, day);
    KeptFileIsComplete(c, maxFiles, disk, events, day);
  }

  // ---------------------------------------------------------------- past the limit

  function Above(days: set<int>, day: int): set<int> {
    set x | x in days && x > day
  }

  /** The file of the day is gone, and there are enough newer ones to fill the limit. */
  ghost predicate CrowdedOut(days: set<int>, day: int, maxFiles: nat) {
    day !in days && |Above(days, day)| >= maxFiles
  }

  /** Cleanup crowds out every day with enough newer ones. */
  lemma CleanupCrowdsOut(days: set<int>, day: int, maxFiles: nat)
    requires |Above(days, day)| >= maxFiles && |days| > maxFiles
    ensures CrowdedOut(days - Doomed(days, maxFiles), day, maxFiles)
  {
    DoomedAreTheOldest(days, maxFiles);
    var doomed := Doomed(days, maxFiles);
    var left := days - doomed;
    if x :| x in left && x <= day {
      assert Above(days, day) <= left - {x} by {
        forall y | y in Above(days, day) ensures y in left {
          assert y in doomed ==> y < x;
        }
      }
      SubsetSize(Above(days, day), left - {x});
    }
    assert Above(left, day) == left;
  }

  /** What cleanup removes is crowded out. */
  lemma DoomedIsCrowdedOut(days: set<int>, day: int, maxFiles: nat)
    requires day in Doomed(days, maxFiles)
    ensures CrowdedOut(days - Doomed(days, maxFiles), day, maxFiles)
  {
    DoomedAreTheOldest(days, maxFiles);
    var left := days - Doomed(days, maxFiles);
    if |days| <= maxFiles {
      NoneDoomed(days, maxFiles);
    }
    assert left <= Above(days, day);
    SubsetSize(left, Above(days, day));
    CleanupCrowdsOut(days, day, maxFiles);
  }

  /** With newer files enough, opening some file and cleaning up leaves it that way. */
  lemma OpenKeepsCrowdedOut(days: set<int>, added: int, day: int, maxFiles: nat)
    requires CrowdedOut(days, day, maxFiles)
    ensures CrowdedOut(days + {added} - Doomed(days + {added}, maxFiles), day, maxFiles)
  {
    var all := days + {added};
    SubsetSize(Above(days, day), Above(all, day));
    if |all| <= maxFiles {
      NoneDoomed(all, maxFiles);
      if added == day {
        AddOne(Above(days, day), day);
        SubsetSize(Above(days, day) + {day}, all);
      }
      assert all - {} == all;
    } else {
      CleanupCrowdsOut(all, day, maxFiles);
    }
  }

  /** Cleaning up without opening does, too. */
  lemma CleanupKeepsCrowdedOut(days: set<int>, day: int, maxFiles: nat)
    requires CrowdedOut(days, day, maxFiles)
    ensures CrowdedOut(days - Doomed(days, maxFiles), day, maxFiles)
  {
    if |days| <= maxFiles {
      NoneDoomed(days, maxFiles);
      assert days - {} == days;
    } else {
      CleanupCrowdsOut(days, day, maxFiles);
    }
  }

  /** Cleanup can remove every file it wants to. */
  ghost predicate AllSwept(events: seq<Event>) {
    forall i :: 0 <= i < |events| ==> Swept(events[i])
  }

  predicate Swept(ev: Event) {
    ev.Write? ==> ev.stuck == {}
  }

  lemma SweptStepCrowdsOut(c: Codec, maxFiles: nat, s: State, ev: Event, day: int)
    requires !ev.Remove? && Swept(ev)
    requires CrowdedOut(s.disk.Keys, day, maxFiles) || day in Unlinks(maxFiles, s, ev)
    ensures CrowdedOut(Step(c, maxFiles, s, ev).disk.Keys, day, maxFiles)
  {
    StepKeys(c, maxFiles, s, ev);
    if ev.Write? && s.currentDay != Some(DayOf(ev.entry.timestamp)) {
      var keys := AfterOpen(s, ev);
      assert Doomed(keys, maxFiles) - {} == Doomed(keys, maxFiles);
      if day in Unlinks(maxFiles, s, ev) {
        DoomedIsCrowdedOut(keys, day, maxFiles);
      } else if ev.openOk {
        OpenKeepsCrowdedOut(s.disk.Keys, DayOf(ev.entry.timestamp), day, maxFiles);
      } else {
        CleanupKeepsCrowdedOut(keys, day, maxFiles);
      }
    } else {
      assert s.disk.Keys - {} == s.disk.Keys;
    }
  }

  lemma {:induction false} RemovedStaysCrowdedOut(c: Codec, maxFiles: nat, disk: map<int, seq<Line>>,
                                                  events: seq<Event>, day: int)
    requires NoneRemoved(events) && AllSwept(events)
    requires !StaysLinked(c, maxFiles, disk, events, day)
    ensures CrowdedOut(Run(c, maxFiles, Idle(disk), events).disk.Keys, day, maxFiles)
  {
    var before, ev := events[..|events| - 1], events[|events| - 1];
    assert events == before + [ev];
    StaysLinkedSnoc(c, maxFiles, disk, before, ev, day);
    if !StaysLinked(c, maxFiles, disk, before, day) {
      RemovedStaysCrowdedOut(c, maxFiles, disk, before, day);
    }
    SweptStepCrowdsOut(c, maxFiles, Run(c, maxFiles, Idle(disk), before), ev, day);
  }

  /** Past the limit cleanup takes whole files, never parts of them: whatever the order of the days, the
      number of entries and the restarts, a day file still on disk is complete if and only if no write of its
      day was dropped, as long as cleanup can remove what it wants to and nothing else removes files. */
  lemma SurvivorsAreComplete(c: Codec, maxFiles: nat, disk: map<int, seq<Line>>, events: seq<Event>, day: int)
    requires Lawful(c) && AllEncodable(c, events) && NoneRemoved(events) && AllSwept(events)
    requires day in Run(c, maxFiles, Idle(disk), events).disk
    ensures Complete(c, maxFiles, disk, events, day) <==> NothingDropped(c, maxFiles, disk, events, day)
  {
    if !StaysLinked(c, maxFiles, disk, events, day) {
      RemovedStaysCrowdedOut(c, maxFiles, disk, events, day);
    }
    KeptFileIsComplete(c, maxFiles, disk, events, day);
  }

  // ---------------------------------------------------------------- removals that fail

  /** No day is written after a later one. */
  ghost predicate InDayOrder(events: seq<Event>) {
    forall i, j :: 0 <= i < j < |events| && events[i].Write? && events[j].Write? ==>
      DayOf(events[i].entry.timestamp) <= DayOf(events[j].entry.timestamp)
  }

  /** Nothing on disk is of a later day than anything written. */
  ghost predicate NoLaterDays(disk: map<int, seq<Line>>, events: seq<Event>) {
    forall d, w :: d in disk && w in DaysOf(events) ==> d <= w
  }

  /** The day is gone, and a later one has been written. */
  ghost predicate Past(days: set<int>, written: set<int>, day: int) {
    day !in days && exists w :: w in written && day < w
  }

  lemma DoomedIsEarlier(days: set<int>, last: int, maxFiles: nat, day: int)
    requires maxFiles > 0 && (forall d :: d in days ==> d <= last) && day in Doomed(days, maxFiles)
    ensures day < last
  {
    DoomedAreTheOldest(days, maxFiles);
    var left := days - Doomed(days, maxFiles);
    assert day in days && days != {};
    assert |left| > 0;
    var y := Pick(left);
    assert day < y <= last;
  }

  /** In day order no file is of a later day than the write, so only earlier days are removed. */
  lemma InOrderStepRemovesEarlier(c: Codec, maxFiles: nat, s: State, ev: Event, day: int)
    requires maxFiles > 0 && ev.Write? && day in Unlinks(maxFiles, s, ev)
    requires forall d :: d in s.disk ==> d <= DayOf(ev.entry.timestamp)
    ensures day < DayOf(ev.entry.timestamp) && day !in Step(c, maxFiles, s, ev).disk
  {
    DoomedIsEarlier(AfterOpen(s, ev), DayOf(ev.entry.timestamp), maxFiles, day);
    StepKeys(c, maxFiles, s, ev);
  }

  lemma InDayOrderSnoc(events: seq<Event>, ev: Event)
    requires InDayOrder(events + [ev])
    ensures InDayOrder(events)
    ensures ev.Write? ==> forall w :: w in DaysOf(events) ==> w <= DayOf(ev.entry.timestamp)
  {
    var all := events + [ev];
    assert forall i :: 0 <= i < |events| ==> all[i] == events[i];
    if ev.Write? {
      forall w | w in DaysOf(events) ensures w <= DayOf(ev.entry.timestamp) {
        var x :| x in events && x.Write? && DayOf(x.entry.timestamp) == w;
        var i :| 0 <= i < |events| && events[i] == x;
        assert all[i] == x && all[|events|] == ev;
      }
    }
  }

  lemma PastStays(c: Codec, maxFiles: nat, s: State, ev: Event, written: set<int>, day: int)
    requires Past(s.disk.Keys, written, day)
    requires ev.Write? ==> forall w :: w in written ==> w <= DayOf(ev.entry.timestamp)
    ensures Past(Step(c, maxFiles, s, ev).disk.Keys, written, day)
  {
    StepKeys(c, maxFiles, s, ev);
  }

  lemma RemovedNowIsPast(c: Codec, maxFiles: nat, disk: map<int, seq<Line>>, before: seq<Event>, ev: Event, day: int)
    requires maxFiles > 0 && !ev.Remove?
    requires InDayOrder(before + [ev]) && NoLaterDays(disk, before + [ev])
    requires day in Unlinks(maxFiles, Run(c, maxFiles, Idle(disk), before), ev)
    ensures ev.Write? && day < DayOf(ev.entry.timestamp)
    ensures day !in Step(c, maxFiles, Run(c, maxFiles, Idle(disk), before), ev).disk
  {
    var s := Run(c, maxFiles, Idle(disk), before);
    DaysSnoc(before, ev);
    InDayOrderSnoc(before, ev);
    RunKeys(c, maxFiles, disk, before);
    assert DayOf(ev.entry.timestamp) in DaysOf(before + [ev]);
    forall d | d in s.disk ensures d <= DayOf(ev.entry.timestamp) {
      assert d in disk.Keys + DaysOf(before);
    }
    InOrderStepRemovesEarlier(c, maxFiles, s, ev, day);
  }

  lemma NoLaterDaysPrefix(disk: map<int, seq<Line>>, before: seq<Event>, ev: Event)
    requires NoLaterDays(disk, before + [ev])
    ensures NoLaterDays(disk, before)
  {
    DaysSnoc(before, ev);
  }

  lemma {:induction false} RemovedIsPast(c: Codec, maxFiles: nat, disk: map<int, seq<Line>>, events: seq<Event>,
                                         day: int)
    requires maxFiles > 0 && NoneRemoved(events)
    requires InDayOrder(events) && NoLaterDays(disk, events)
    requires !StaysLinked(c, maxFiles, disk, events, day)
    ensures Past(Run(c, maxFiles, Idle(disk), events).disk.Keys, DaysOf(events), day)
  {
    var before, ev := events[..|events| - 1], events[|events| - 1];
    var s := Run(c, maxFiles, Idle(disk), before);
    assert events == before + [ev];
    StaysLinkedSnoc(c, maxFiles, disk, before, ev, day);
    DaysSnoc(before, ev);
    if day in Unlinks(maxFiles, s, ev) {
      RemovedNowIsPast(c, maxFiles, disk, before, ev, day);
    } else {
      InDayOrderSnoc(before, ev);
      NoLaterDaysPrefix(disk, before, ev);
      RemovedIsPast(c, maxFiles, disk, before, day);
      PastStays(c, maxFiles, s, ev, DaysOf(before), day);
    }
  }

  /** Even when cleanup cannot remove everything, a day file still on disk is complete if and only if no write
      of its day was dropped, if the days are written in order, the limit is positive, nothing on disk is of a
      later day and nothing else removes files. */
  lemma SurvivorsInOrderAreComplete(c: Codec, maxFiles: nat, disk: map<int, seq<Line>>, events: seq<Event>, day: int)
    requires Lawful(c) && AllEncodable(c, events) && NoneRemoved(events)
    requires maxFiles > 0 && InDayOrder(events) && NoLaterDays(disk, events)
    requires day in Run(c, maxFiles, Idle(disk), events).disk
    ensures Complete(c, maxFiles, disk, events, day) <==> NothingDropped(c, maxFiles, disk, events, day)
  {
    if !StaysLinked(c, maxFiles, disk, events, day) {
      RemovedIsPast(c, maxFiles, disk, events, day);
    }
    KeptFileIsComplete(c, maxFiles, disk, events, day);
  }

  // ---------------------------------------------------------------- two ways to lose an entry

  lemma TwoDaysOneRoom(x: int, y: int)
    requires x < y
    ensures Doomed({x, y}, 1) == {x} && Doomed({x}, 1) == {}
  {
    NoneDoomed({x}, 1);
    DoomedAreTheOldest({x, y}, 1);
    var doomed := Doomed({x, y}, 1);
    var left := {x, y} - doomed;
    assert |{x, y}| == 2;
    var z := Pick(left);
    assert left == {z} by {
      assert left - {z} == {};
    }
    assert z == x ==> y in doomed;
  }

  /** A write on a day that is not open yet, with a cleanup that can remove everything. */
  lemma OpeningWrite(c: Codec, s: State, e: Entry, keys: set<int>)
    requires s.currentDay != Some(DayOf(e.timestamp)) && keys == s.disk.Keys + {DayOf(e.timestamp)}
    ensures var t := Step(c, 1, s, Write(e, true, {}));
            t.disk.Keys == keys - Doomed(keys, 1) && t.currentDay == Some(DayOf(e.timestamp))
  {
    WriteAppendsToCurrent(c, 1, s, Write(e, true, {}));
    StepKeys(c, 1, s, Write(e, true, {}));
    assert Doomed(keys, 1) - {} == Doomed(keys, 1);
  }

  lemma TwoWrites(c: Codec, a: Entry, b: Entry, s1: State, s: State)
    requires DayOf(a.timestamp) < DayOf(b.timestamp)
    requires s1 == Step(c, 1, Idle(map[]), Write(a, true, {})) && s == Step(c, 1, s1, Write(b, true, {}))
    ensures s.disk.Keys == {DayOf(b.timestamp)} && s.currentDay == Some(DayOf(b.timestamp))
  {
    var x, y := DayOf(a.timestamp), DayOf(b.timestamp);
    TwoDaysOneRoom(x, y);
    OpeningWrite(c, Idle(map[]), a, {x});
    assert s1.disk.Keys == {x};
    OpeningWrite(c, s1, b, {x, y});
  }

  lemma RunThree(c: Codec, maxFiles: nat, disk: map<int, seq<Line>>, e1: Event, e2: Event, e3: Event)
    ensures var s0 := Idle(disk);
            Run(c, maxFiles, s0, [e1] + [e2] + [e3]) ==
            Step(c, maxFiles, Step(c, maxFiles, Step(c, maxFiles, s0, e1), e2), e3)
  {
    var s0 := Idle(disk);
    var one, two := [e1], [e1] + [e2];
    assert one[..0] == [] && two[..1] == one && (two + [e3])[..2] == two;
    assert Run(c, maxFiles, s0, one) == Step(c, maxFiles, Run(c, maxFiles, s0, []), e1);
    assert Run(c, maxFiles, s0, two) == Step(c, maxFiles, Run(c, maxFiles, s0, one), e2);
  }

  lemma EntriesOfThree(e1: Event, e2: Event, e3: Event, day: int)
    ensures EntriesOf([e1] + [e2] + [e3], day) == PayloadOf(e1, day) + PayloadOf(e2, day) + PayloadOf(e3, day)
  {
    var one, two := [e1], [e1] + [e2];
    assert one[..0] == [] && two[..1] == one && (two + [e3])[..2] == two;
    assert EntriesOf(one, day) == EntriesOf([], day) + PayloadOf(e1, day);
    assert EntriesOf(two, day) == EntriesOf(one, day) + PayloadOf(e2, day);
  }

  /** After two days with room for one, the first day written again. */
  lemma WrittenAgain(c: Codec, a: Entry, b: Entry, s1: State, s2: State, day: int)
    requires Lawful(c) && Encodable(c, a) && day == DayOf(a.timestamp) && day < DayOf(b.timestamp)
    requires s1 == Step(c, 1, Idle(map[]), Write(a, true, {})) && s2 == Step(c, 1, s1, Write(b, true, {}))
    ensures Payloads(c, Content(Step(c, 1, s2, Write(a, true, {day})).disk, day)) == [a.(prevHash := "")]
  {
    TwoWrites(c, a, b, s1, s2);
    StepIsLinked(c, 1, Idle(map[]), Write(a, true, {}));
    StepIsLinked(c, 1, s1, Write(b, true, {}));
    FreshFile(c, s2, a, day);
  }

  /** A file that cleanup has removed is started afresh when its day is written again out of order, and stays
      when its removal now fails, without its first entry. */
  lemma RecreatedFileIsIncomplete(c: Codec, a: Entry, b: Entry)
    requires Lawful(c) && Encodable(c, a) && DayOf(a.timestamp) < DayOf(b.timestamp)
    ensures var day := DayOf(a.timestamp);
            var events := [Write(a, true, {})] + [Write(b, true, {})] + [Write(a, true, {day})];
            && Payloads(c, Content(Run(c, 1, Idle(map[]), events).disk, day)) == [a.(prevHash := "")]
            && EntriesOf(events, day) == [a.(prevHash := ""), a.(prevHash := "")]
  {
    var day := DayOf(a.timestamp);
    var e1, e2, e3 := Write(a, true, {}), Write(b, true, {}), Write(a, true, {day});
    RunThree(c, 1, map[], e1, e2, e3);
    EntriesOfThree(e1, e2, e3, day);
    var s1 := Step(c, 1, Idle(map[]), e1);
    WrittenAgain(c, a, b, s1, Step(c, 1, s1, e2), day);
  }

  /** A write to a file that was not there and cannot be removed. */
  lemma FreshFile(c: Codec, s: State, e: Entry, day: int)
    requires Lawful(c) && Encodable(c, e) && Linked(s)
    requires day == DayOf(e.timestamp) && day !in s.disk && s.currentDay != Some(day)
    ensures Payloads(c, Content(Step(c, 1, s, Write(e, true, {day})).disk, day)) == [e.(prevHash := "")]
  {
    StepPayloads(c, 1, s, Write(e, true, {day}), day);
    assert Payloads(c, Content(s.disk, day)) == [];
  }

  /** An open that fails leaves the day before as the current one, with no file: the next entry of that day is
      dropped, although the file of the day is on disk all the time. */
  lemma FailedOpenDropsTheNextEntry(c: Codec, a: Entry, b: Entry)
    requires Lawful(c) && Encodable(c, a) && Encodable(c, b) && DayOf(a.timestamp) != DayOf(b.timestamp)
    ensures var day := DayOf(a.timestamp);
            var events := [Write(a, true, {})] + [Write(b, false, {})] + [Write(a, true, {})];
            StaysLinked(c, 30, map[], events, day) && !Complete(c, 30, map[], events, day)
  {
    var day := DayOf(a.timestamp);
    var e1, e2 := Write(a, true, {}), Write(b, false, {});
    var events := [e1] + [e2] + [e1];
    AtMostThreeDays(e1, e2, e1);
    NothingUnlinkedBelowTheLimit(c, 30, map[], events, day);
    NothingIsLost(c, 30, map[], events, day);
    AfterFailedOpen(c, a, b);
    assert events[..2] == [e1] + [e2];
    assert DroppedAt(c, 30, map[], events, 2, day);
  }

  /** The state after the failed open. */
  lemma AfterFailedOpen(c: Codec, a: Entry, b: Entry)
    requires DayOf(a.timestamp) != DayOf(b.timestamp)
    ensures var t := Run(c, 30, Idle(map[]), [Write(a, true, {})] + [Write(b, false, {})]);
            t.currentDay == Some(DayOf(a.timestamp)) && t.handle == NoFile
  {
    var e1, e2 := Write(a, true, {}), Write(b, false, {});
    var s1 := Step(c, 30, Idle(map[]), e1);
    WriteAppendsToCurrent(c, 30, Idle(map[]), e1);
    WriteAppendsToCurrent(c, 30, s1, e2);
    assert [e1][..0] == [] && ([e1] + [e2])[..1] == [e1];
    assert Run(c, 30, Idle(map[]), [e1]) == Step(c, 30, Run(c, 30, Idle(map[]), []), e1);
  }

  lemma AtMostThreeDays(e1: Event, e2: Event, e3: Event)
    requires e1.Write? && e2.Write? && e3.Write?
    ensures var none: map<int, seq<Line>> := map[];
            |none.Keys + DaysOf([e1] + [e2] + [e3])| <= 30
  {
    assert DaysOf([]) == {} && [] + [e1] == [e1];
    MoreDays([], e1);
    MoreDays([e1], e2);
    MoreDays([e1] + [e2], e3);
    var none: map<int, seq<Line>> := map[];
    assert none.Keys + DaysOf([e1] + [e2] + [e3]) == DaysOf([e1] + [e2] + [e3]);
  }

  lemma MoreDays(events: seq<Event>, ev: Event)
    requires ev.Write?
    ensures |DaysOf(events + [ev])| <= |DaysOf(events)| + 1
  {
    DaysSnoc(events, ev);
    AddOne(DaysOf(events), DayOf(ev.entry.timestamp));
  }

  // ---------------------------------------------------------------- the directory check

  lemma {:induction false} EntriesAreOfWrittenDays(events: seq<Event>, day: int)
    ensures EntriesOf(events, day) != [] <==> day in DaysOf(events)
  {
    if events != [] {
      var before, ev := events[..|events| - 1], events[|events| - 1];
      assert events == before + [ev];
      EntriesAreOfWrittenDays(before, day);
      DaysSnoc(before, ev);
    }
  }

  /** Each line that is not blank decodes. */
  ghost predicate AllDecode(c: Codec, lines: seq<Line>) {
    forall i :: 0 <= i < |lines| && lines[i] != "" ==> c.decode(lines[i]).Some?
  }

  lemma {:induction false} PayloadsMeanEntries(c: Codec, lines: seq<Line>)
    requires AllDecode(c, lines)
    ensures Payloads(c, lines) != [] <==> HasEntry(lines)
  {
    if lines != [] {
      var init := lines[..|lines| - 1];
      assert AllDecode(c, init);
      PayloadsMeanEntries(c, init);
    }
  }

  ghost predicate AtMostOne(days: set<int>) {
    forall d, e :: d in days && e in days ==> d == e
  }

  /** After an undisturbed run from an empty directory the directory check passes if and only if all entries
      were of one day. */
  lemma DirectoryCheckCountsDays(c: Codec, maxFiles: nat, events: seq<Event>, left: map<int, seq<Line>>)
    requires Lawful(c) && AllEncodable(c, events) && OpensSucceed(events) && NoneRemoved(events)
    requires |DaysOf(events)| <= maxFiles
    requires left == Run(c, maxFiles, Idle(map[]), events).disk
    ensures Checked(c, Files(LogFiles(left))).valid <==> AtMostOne(DaysOf(events))
  {
    DirectoryCheckOnWriterOutput(c, maxFiles, map[], events, left);
    forall d ensures d in left && HasEntry(left[d]) <==> d in DaysOf(events) {
      DayHasEntries(c, maxFiles, events, left, d);
    }
  }

  lemma DayHasEntries(c: Codec, maxFiles: nat, events: seq<Event>, left: map<int, seq<Line>>, day: int)
    requires Lawful(c) && AllEncodable(c, events) && OpensSucceed(events) && NoneRemoved(events)
    requires |DaysOf(events)| <= maxFiles
    requires left == Run(c, maxFiles, Idle(map[]), events).disk
    ensures day in left && HasEntry(left[day]) <==> day in DaysOf(events)
  {
    var empty: map<int, seq<Line>> := map[];
    assert empty.Keys + DaysOf(events) == DaysOf(events);
    NothingIsLost(c, maxFiles, empty, events, day);
    NothingDroppedWhenOpensSucceed(c, maxFiles, empty, events, day);
    EntriesAreOfWrittenDays(events, day);
    EveryFileVerifies(c, maxFiles, empty, events);
    if day in left {
      assert FileOk(c, day, left[day]);
      PayloadsMeanEntries(c, left[day]);
    }
  }

  /** The writer does leave directories that the check rejects: two entries on two days are enough. */
  lemma TwoDaysAreRejected() returns (c: Codec, events: seq<Event>, left: map<int, seq<Line>>)
    ensures Lawful(c) && |events| == 2 && left == Run(c, 30, Idle(map[]), events).disk
    ensures !Checked(c, Files(LogFiles(left))).valid
  {
    c := LawsAreSatisfiable(0, DAY);
    var a, b := Entry(0, "", "", "", "", ""), Entry(DAY, "", "", "", "", "");
    events := [Write(a, true, {})] + [Write(b, true, {})];
    left := Run(c, 30, Idle(map[]), events).disk;
    assert Encodable(c, a) && Encodable(c, b);
    DaysSnoc([], Write(a, true, {}));
    DaysSnoc([Write(a, true, {})], Write(b, true, {}));
    assert [] + [Write(a, true, {})] == [Write(a, true, {})];
    assert DaysOf([]) == {};
    assert DaysOf(events) == {0, 1};
    DirectoryCheckCountsDays(c, 30, events, left);
  }
}
