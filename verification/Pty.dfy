/** A `claude` process under a pseudo-terminal (agent/claudemcp/pty_process.go) and the pump that turns its
    output and its signals into session events (agent/claudemcp/claudemcp.go). The reader, the waiter and
    the pump are goroutines; what they do in any order is modelled as runs of atomic actions. */
module Pty {
  import opened Common

  /** The capacity of the `lines` channel. */
  const Capacity: nat := 1024

  /** A chunk with its position in what was read. */
  datatype Item = Item(no: nat, text: string)

  /** What the rendezvous socket delivers; `Unknown` is any other type of signal, or its channel being
      closed, and is passed over. */
  datatype Signal = Completed(summary: string, phase: string) | Failed(phase: string, reason: string) | Unknown

  datatype Event =
    | Stream(text: string)
    | Complete(content: string, phase: string)
    | IdleComplete(phase: string)
    | Error(message: string)

  /** Where the reader is: between reads, before its first send, before the drop, before its second send,
      about to return, or gone with `readDone` closed. */
  datatype Reader =
    | Reading
    | Sending(item: Item, failed: bool)
    | Dropping(item: Item, failed: bool)
    | Resending(item: Item, failed: bool)
    | Returning
    | Returned

  datatype Waiter = Waiting | Exited | LinesClosed | AllClosed

  datatype Pump = Pump(sawOutput: bool, finished: bool, events: seq<Event>)

  /** What the pump's select may find ready. */
  datatype Choice =
    | Line(text: string)
    | LinesEnded
    | Cancelled
    | IdleFired(phase: string)
    | Signalled(signal: Signal)

  datatype State = State(
    reader: Reader, waiter: Waiter, lines: seq<Item>, closed: bool, pump: Pump,
    read: seq<string>, received: seq<Item>, dropped: set<nat>, lost: bool, panicked: bool)

  datatype Action =
    | Read(text: string, failed: bool)
    | TrySend
    | DropOldest
    | TryAgain
    | Return
    | Exit
    | CloseLines
    | CloseDone
    | Select(choice: Choice)

  function Init(): State {
    State(Reading, Waiting, [], false, Pump(false, false, []), [], [], {}, false, false)
  }

  // ---------------------------------------------------------------- the actions

  function Loop(failed: bool): Reader {
    if failed then Returning else Reading
  }

  function Send(s: State, item: Item): State {
    s.(lines := s.lines + [item], panicked := s.panicked || s.closed)
  }

  function StepReader(s: State, a: Action): Option<State> {
    match (s.reader, a)
    case (Reading, Read(text, failed)) =>
      Some(if text == "" then s.(reader := Loop(failed))
           else s.(read := s.read + [text], reader := Sending(Item(|s.read|, text), failed)))
    case (Sending(item, failed), TrySend) =>
      Some(if |s.lines| < Capacity then Send(s, item).(reader := Loop(failed))
           else s.(reader := Dropping(item, failed)))
    case (Dropping(item, failed), DropOldest) =>
      Some(if s.lines == [] then s.(reader := Resending(item, failed))
           else s.(dropped := s.dropped + {s.lines[0].no}, lines := s.lines[1..], reader := Resending(item, failed)))
    case (Resending(item, failed), TryAgain) =>
      Some(if |s.lines| < Capacity then Send(s, item).(reader := Loop(failed))
           else s.(reader := Loop(failed), lost := true))
    case (Returning, Return) => Some(s.(reader := Returned))
    case _ => None
  }

  function StepWaiter(s: State, a: Action): Option<State> {
    match (s.waiter, a)
    case (Waiting, Exit) => Some(s.(waiter := Exited))
    case (Exited, CloseLines) =>
      if s.reader.Returned?
      then Some(s.(waiter := LinesClosed, closed := true, panicked := s.panicked || s.closed))
      else None
    case (LinesClosed, CloseDone) => Some(s.(waiter := AllClosed))
    case _ => None
  }

  function Emit(p: Pump, e: Event): Pump {
    Pump(p.sawOutput || e.Stream?, !e.Stream?, p.events + [e])
  }

  /** One round of the pump: the event it emits, if any. An idle timer that fires before any output, and a
      signal of unknown type, are ignored. */
  function Reaction(sawOutput: bool, c: Choice): Option<Event> {
    match c
    case Line(text) => Some(Stream(text))
    case LinesEnded => Some(Error("claudemcp: claude exited without signalling completion"))
    case Cancelled => Some(Error("claudemcp: context cancelled"))
    case IdleFired(phase) => if sawOutput then Some(IdleComplete(phase)) else None
    case Signalled(Completed(summary, phase)) => Some(Complete(summary, phase))
    case Signalled(Failed(phase, reason)) => Some(Error("phase " + phase + " failed: " + reason))
    case Signalled(Unknown) => None
  }

  function On(p: Pump, c: Choice): Pump {
    match Reaction(p.sawOutput, c)
    case None => p
    case Some(e) => Emit(p, e)
  }

  function StepPump(s: State, c: Choice): Option<State> {
    if s.pump.finished then None
    else if c.Line? then
      if s.lines != [] && c.text == s.lines[0].text then
        Some(s.(lines := s.lines[1..], received := s.received + [s.lines[0]], pump := On(s.pump, c)))
      else None
    else if c.LinesEnded? && (s.lines != [] || !s.closed) then None
    else Some(s.(pump := On(s.pump, c)))
  }

  /** None when the action is not possible in the state. */
  function Step(s: State, a: Action): Option<State> {
    match a
    case Read(_, _) => StepReader(s, a)
    case TrySend => StepReader(s, a)
    case DropOldest => StepReader(s, a)
    case TryAgain => StepReader(s, a)
    case Return => StepReader(s, a)
    case Exit => StepWaiter(s, a)
    case CloseLines => StepWaiter(s, a)
    case CloseDone => StepWaiter(s, a)
    case Select(c) => StepPump(s, c)
  }

  function Run(actions: seq<Action>): Option<State> {
    if actions == [] then Some(Init())
    else match Run(actions[..|actions| - 1])
      case None => None
      case Some(s) => Step(s, actions[|actions| - 1])
  }

  // ---------------------------------------------------------------- what every step keeps

  function Held(s: State): seq<Item> {
    if s.reader.Sending? || s.reader.Dropping? || s.reader.Resending? then [s.reader.item] else []
  }

  /** Everything read that was not dropped: delivered, buffered or in the reader's hand. */
  function Kept(s: State): seq<Item> {
    s.received + s.lines + Held(s)
  }

  /** In the order read, with the text read. */
  ghost predicate InOrder(items: seq<Item>, read: seq<string>) {
    && (forall i, j :: 0 <= i < j < |items| ==> items[i].no < items[j].no)
    && (forall i :: 0 <= i < |items| ==> items[i].no < |read| && items[i].text == read[items[i].no])
  }

  ghost predicate Holds(items: seq<Item>, n: nat) {
    exists i :: 0 <= i < |items| && items[i].no == n
  }

  /** Each chunk read is either kept or dropped. */
  ghost predicate Conserved(items: seq<Item>, dropped: set<nat>, read: seq<string>) {
    && (forall n: nat :: n < |read| <==> Holds(items, n) || n in dropped)
    && (forall i :: 0 <= i < |items| ==> items[i].no !in dropped)
  }

  /** Only what is older than the whole buffer is dropped. */
  ghost predicate DroppedAreOlder(items: seq<Item>, dropped: set<nat>) {
    forall d, i :: d in dropped && 0 <= i < |items| ==> d < items[i].no
  }

  ghost predicate ChannelInv(s: State) {
    && InOrder(Kept(s), s.read) && Conserved(Kept(s), s.dropped, s.read)
    && DroppedAreOlder(s.lines + Held(s), s.dropped)
  }

  ghost predicate ControlInv(s: State) {
    && !s.panicked && !s.lost
    && |s.lines| <= Capacity
    && (s.reader.Resending? ==> |s.lines| < Capacity)
    && (s.closed <==> s.waiter.LinesClosed? || s.waiter.AllClosed?)
    && (s.closed ==> s.reader.Returned?)
  }

  /** Stream events, exactly the texts received, then one terminal event once the pump has finished; an idle
      completion only after a Stream event. */
  ghost predicate PumpInv(p: Pump, received: seq<Item>) {
    && |p.events| == |received| + (if p.finished then 1 else 0)
    && (forall i :: 0 <= i < |received| ==> p.events[i] == Stream(received[i].text))
    && (p.finished ==> !p.events[|received|].Stream? && (p.events[|received|].IdleComplete? ==> received != []))
    && (p.sawOutput <==> received != [])
  }

  ghost predicate Inv(s: State) {
    ChannelInv(s) && ControlInv(s) && PumpInv(s.pump, s.received)
  }

  lemma InOrderSnoc(items: seq<Item>, read: seq<string>, dropped: set<nat>, text: string)
    requires InOrder(items, read) && Conserved(items, dropped, read)
    ensures var item := Item(|read|, text);
            InOrder(items + [item], read + [text]) && Conserved(items + [item], dropped, read + [text])
  {
    var all, read' := items + [Item(|read|, text)], read + [text];
    forall n: nat ensures n < |read'| <==> Holds(all, n) || n in dropped {
      HoldsSnoc(items, Item(|read|, text), n);
      assert n < |read| <==> Holds(items, n) || n in dropped;
    }
  }

  lemma HoldsSnoc(items: seq<Item>, item: Item, n: nat)
    ensures Holds(items + [item], n) <==> Holds(items, n) || n == item.no
  {
    var all := items + [item];
    assert all[|items|] == item && forall i :: 0 <= i < |items| ==> all[i] == items[i];
  }

  lemma OrderWithout(a: seq<Item>, b: seq<Item>, read: seq<string>)
    requires b != [] && InOrder(a + b, read)
    ensures InOrder(a + b[1..], read)
    ensures forall i :: 0 <= i < |a + b[1..]| ==> (a + b[1..])[i].no != b[0].no
  {
    var all, rest := a + b, a + b[1..];
    assert forall i :: 0 <= i < |rest| ==> rest[i] == all[if i < |a| then i else i + 1];
    assert all[|a|] == b[0];
  }

  /** Taking one item out of the middle. */
  lemma DropOne(a: seq<Item>, b: seq<Item>, read: seq<string>, dropped: set<nat>)
    requires b != [] && InOrder(a + b, read) && Conserved(a + b, dropped, read)
    ensures InOrder(a + b[1..], read) && Conserved(a + b[1..], dropped + {b[0].no}, read)
  {
    var all, rest := a + b, a + b[1..];
    OrderWithout(a, b, read);
    forall n: nat ensures n < |read| <==> Holds(rest, n) || n in dropped + {b[0].no} {
      HoldsMiddle(a, b, n);
      assert n < |read| <==> Holds(all, n) || n in dropped;
    }
    forall i | 0 <= i < |rest| ensures rest[i].no !in dropped {
      assert rest[i] == all[if i < |a| then i else i + 1];
    }
  }

  lemma HoldsAppend(a: seq<Item>, b: seq<Item>, n: nat)
    ensures Holds(a + b, n) <==> Holds(a, n) || Holds(b, n)
  {
    var all := a + b;
    if Holds(a, n) {
      var i :| 0 <= i < |a| && a[i].no == n;
      assert all[i].no == n;
    }
    if Holds(b, n) {
      var i :| 0 <= i < |b| && b[i].no == n;
      assert all[|a| + i].no == n;
    }
  }

  lemma HoldsMiddle(a: seq<Item>, b: seq<Item>, n: nat)
    requires b != []
    ensures Holds(a + b, n) <==> Holds(a + b[1..], n) || n == b[0].no
  {
    HoldsAppend(a, b, n);
    HoldsAppend(a, b[1..], n);
    HoldsAppend([b[0]], b[1..], n);
    assert b == [b[0]] + b[1..];
    assert [b[0]][0].no == b[0].no;
  }

  lemma ReadKeepsChannel(s: State, text: string, failed: bool)
    requires ChannelInv(s) && s.reader.Reading? && text != ""
    ensures ChannelInv(s.(read := s.read + [text], reader := Sending(Item(|s.read|, text), failed)))
  {
    var item := Item(|s.read|, text);
    assert Kept(s) == s.received + s.lines;
    InOrderSnoc(Kept(s), s.read, s.dropped, text);
    assert s.lines + Held(s) == s.lines;
    forall d | d in s.dropped ensures d < |s.read| {
      assert d < |s.read| <==> Holds(Kept(s), d) || d in s.dropped;
    }
  }

  lemma SendKeepsChannel(s: State, t: State)
    requires ChannelInv(s) && Held(s) != [] && Held(t) == []
    requires t.lines == s.lines + Held(s) && t.received == s.received && t.read == s.read && t.dropped == s.dropped
    ensures ChannelInv(t)
  {
    assert Kept(t) == Kept(s);
    assert t.lines + Held(t) == s.lines + Held(s);
  }

  lemma DropKeepsChannel(s: State, t: State)
    requires ChannelInv(s) && s.lines != [] && Held(t) == Held(s)
    requires t.lines == s.lines[1..] && t.received == s.received && t.read == s.read
             && t.dropped == s.dropped + {s.lines[0].no}
    ensures ChannelInv(t)
  {
    var b := s.lines + Held(s);
    assert Kept(s) == s.received + b;
    assert b[1..] == t.lines + Held(t) && Kept(t) == s.received + b[1..];
    DropOne(s.received, b, s.read, s.dropped);
    forall i | 0 <= i < |b[1..]| ensures b[0].no < b[1..][i].no {
      assert Kept(s)[|s.received|] == b[0] && Kept(s)[|s.received| + i + 1] == b[i + 1];
    }
  }

  lemma ReceiveKeepsChannel(s: State, t: State)
    requires ChannelInv(s) && s.lines != [] && Held(t) == Held(s)
    requires t.lines == s.lines[1..] && t.received == s.received + [s.lines[0]] && t.read == s.read
             && t.dropped == s.dropped
    ensures ChannelInv(t)
  {
    assert Kept(t) == Kept(s);
    assert t.lines + Held(t) == (s.lines + Held(s))[1..];
  }

  lemma ReaderKeepsInv(s: State, a: Action)
    requires Inv(s) && StepReader(s, a).Some?
    ensures Inv(StepReader(s, a).value)
  {
    var t := StepReader(s, a).value;
    match (s.reader, a)
    case (Reading, Read(text, failed)) =>
      if text != "" {
        ReadKeepsChannel(s, text, failed);
      }
    case (Sending(item, failed), TrySend) =>
      if |s.lines| < Capacity {
        SendKeepsChannel(s, t);
      }
    case (Dropping(item, failed), DropOldest) =>
      if s.lines != [] {
        DropKeepsChannel(s, t);
      }
    case (Resending(item, failed), TryAgain) =>
      SendKeepsChannel(s, t);
    case (Returning, Return) =>
  }

  lemma WaiterKeepsInv(s: State, a: Action)
    requires Inv(s) && StepWaiter(s, a).Some?
    ensures Inv(StepWaiter(s, a).value)
  {
    var t := StepWaiter(s, a).value;
    assert Kept(t) == Kept(s);
  }

  lemma OnKeepsInv(p: Pump, received: seq<Item>, c: Choice)
    requires PumpInv(p, received) && !p.finished && !c.Line?
    ensures PumpInv(On(p, c), received)
  {
  }

  lemma LineKeepsInv(p: Pump, received: seq<Item>, item: Item)
    requires PumpInv(p, received) && !p.finished
    ensures PumpInv(On(p, Line(item.text)), received + [item])
  {
  }

  lemma PumpKeepsInv(s: State, c: Choice)
    requires Inv(s) && StepPump(s, c).Some?
    ensures Inv(StepPump(s, c).value)
  {
    var t := StepPump(s, c).value;
    if c.Line? {
      ReceiveKeepsChannel(s, t);
      LineKeepsInv(s.pump, s.received, s.lines[0]);
    } else {
      assert Kept(t) == Kept(s);
      OnKeepsInv(s.pump, s.received, c);
    }
  }

  lemma {:induction false} RunKeepsInv(actions: seq<Action>)
    requires Run(actions).Some?
    ensures Inv(Run(actions).value)
  {
    if actions != [] {
      var s, a := Run(actions[..|actions| - 1]).value, actions[|actions| - 1];
      RunKeepsInv(actions[..|actions| - 1]);
      match a
      case Read(_, _) => ReaderKeepsInv(s, a);
      case TrySend => ReaderKeepsInv(s, a);
      case DropOldest => ReaderKeepsInv(s, a);
      case TryAgain => ReaderKeepsInv(s, a);
      case Return => ReaderKeepsInv(s, a);
      case Exit => WaiterKeepsInv(s, a);
      case CloseLines => WaiterKeepsInv(s, a);
      case CloseDone => WaiterKeepsInv(s, a);
      case Select(c) => PumpKeepsInv(s, c);
    }
  }

  // ---------------------------------------------------------------- what holds in every interleaving

  /** No chunk is sent after `lines` is closed and nothing is closed twice; the newest chunk always gets into
      the buffer; the pump's Stream events are in reading order, each with the text read; every chunk read is
      delivered, buffered, in the reader's hand or dropped, and only dropped when older than the buffer. */
  ghost predicate Safe(s: State) {
    && !s.panicked && !s.lost && |s.lines| <= Capacity
    && InOrder(Kept(s), s.read) && Conserved(Kept(s), s.dropped, s.read)
    && DroppedAreOlder(s.lines + Held(s), s.dropped)
    && PumpInv(s.pump, s.received)
  }

  lemma EveryRunIsSafe(actions: seq<Action>)
    requires Run(actions).Some?
    ensures Safe(Run(actions).value)
  {
    RunKeepsInv(actions);
  }

  /** The second send of the reader always finds room. */
  lemma NewestIsEnqueued(actions: seq<Action>, s: State, t: State)
    requires Run(actions) == Some(s) && s.reader.Resending? && Step(s, TryAgain) == Some(t)
    ensures t.lines == s.lines + [s.reader.item] && !t.lost && !t.panicked
  {
    RunKeepsInv(actions);
  }

  /** Seeing the channel closed ends the session only after everything the process wrote has been delivered,
      apart from what the full buffer dropped. */
  lemma ClosedMeansDrained(actions: seq<Action>, s: State, n: nat)
    requires Run(actions) == Some(s) && Step(s, Select(LinesEnded)).Some? && n < |s.read|
    ensures s.pump.events == Streamed(s.received)
    ensures Holds(s.received, n) <==> n !in s.dropped
  {
    RunKeepsInv(actions);
    assert Kept(s) == s.received;
    assert Holds(s.received, n) || n in s.dropped;
  }

  function Streamed(items: seq<Item>): seq<Event> {
    seq(|items|, i requires 0 <= i < |items| => Stream(items[i].text))
  }

  // ---------------------------------------------------------------- why it ends

  /** The terminal event that belongs to a choice: a signal's own report, an idle completion, or an error for an
      exit or a cancellation. */
  predicate EndsWith(c: Choice, e: Event) {
    match e
    case Complete(content, phase) => c == Signalled(Completed(content, phase))
    case IdleComplete(phase) => c == IdleFired(phase)
    case Error(message) =>
      || (c == LinesEnded && message == "claudemcp: claude exited without signalling completion")
      || (c == Cancelled && message == "claudemcp: context cancelled")
      || (c.Signalled? && c.signal.Failed?
          && message == "phase " + c.signal.phase + " failed: " + c.signal.reason)
    case Stream(_) => false
  }

  ghost predicate PumpCaused(actions: seq<Action>, p: Pump) {
    p.finished ==> p.events != [] && exists i :: 0 <= i < |actions| && CausedBy(actions[i], p.events[|p.events| - 1])
  }

  predicate CausedBy(a: Action, e: Event) {
    a.Select? && EndsWith(a.choice, e)
  }

  lemma ReactionEnds(sawOutput: bool, c: Choice)
    ensures Reaction(sawOutput, c).Some? && !c.Line? ==> EndsWith(c, Reaction(sawOutput, c).value)
    ensures c.Line? ==> Reaction(sawOutput, c) == Some(Stream(c.text))
  {
  }

  /** A finished pump has emitted the event that belongs to what ended it. */
  lemma {:induction false} TerminalEventHasItsCause(actions: seq<Action>)
    requires Run(actions).Some?
    ensures PumpCaused(actions, Run(actions).value.pump)
  {
    if actions != [] {
      var n := |actions| - 1;
      var s, a := Run(actions[..n]).value, actions[n];
      TerminalEventHasItsCause(actions[..n]);
      LastOne(actions);
      if a.Select? {
        CausedNow(actions[..n], s, a.choice);
      } else {
        CausedBefore(actions[..n], s.pump, a);
      }
    }
  }

  lemma CausedNow(before: seq<Action>, s: State, c: Choice)
    requires StepPump(s, c).Some?
    ensures PumpCaused(before + [Select(c)], StepPump(s, c).value.pump)
  {
    ReactionEnds(s.pump.sawOutput, c);
    assert (before + [Select(c)])[|before|] == Select(c);
    if StepPump(s, c).value.pump.finished {
      assert CausedBy((before + [Select(c)])[|before|], Reaction(s.pump.sawOutput, c).value);
    }
  }

  lemma CausedBefore(before: seq<Action>, p: Pump, a: Action)
    requires PumpCaused(before, p)
    ensures PumpCaused(before + [a], p)
  {
    if p.finished {
      var i :| 0 <= i < |before| && CausedBy(before[i], p.events[|p.events| - 1]);
      assert (before + [a])[i] == before[i];
    }
  }

  /** Where the reader is says whether a read has failed; the channel is closed only after the process exited. */
  predicate ReaderTold(actions: seq<Action>, s: State) {
    && (match s.reader
        case Reading => NoFailedRead(actions)
        case Sending(_, failed) => failed != NoFailedRead(actions)
        case Dropping(_, failed) => failed != NoFailedRead(actions)
        case Resending(_, failed) => failed != NoFailedRead(actions)
        case Returning => !NoFailedRead(actions)
        case Returned => !NoFailedRead(actions))
    && (s.closed ==> Exit in actions)
    && (s.waiter.Exited? ==> Exit in actions)
  }

  predicate NoFailedRead(actions: seq<Action>) {
    forall i :: 0 <= i < |actions| ==> !(actions[i].Read? && actions[i].failed)
  }

  lemma NoFailedReadSnoc(before: seq<Action>, a: Action)
    ensures NoFailedRead(before + [a]) <==> NoFailedRead(before) && !(a.Read? && a.failed)
  {
    var all := before + [a];
    assert all[|before|] == a && forall i :: 0 <= i < |before| ==> all[i] == before[i];
  }

  /** The reader goes on until a read fails and reads nothing after that; lines is closed only after the exit. */
  lemma {:induction false} ReadsUntilOneFails(actions: seq<Action>)
    requires Run(actions).Some?
    ensures ReaderTold(actions, Run(actions).value)
    ensures forall text, failed :: Step(Run(actions).value, Read(text, failed)).Some? ==> NoFailedRead(actions)
  {
    if actions != [] {
      var before, a := actions[..|actions| - 1], actions[|actions| - 1];
      ReadsUntilOneFails(before);
      LastOne(actions);
      NoFailedReadSnoc(before, a);
      ReaderToldNext(before, Run(before).value, a);
    }
  }

  lemma ReaderToldNext(before: seq<Action>, s: State, a: Action)
    requires ReaderTold(before, s) && Step(s, a).Some?
    requires NoFailedRead(before + [a]) <==> NoFailedRead(before) && !(a.Read? && a.failed)
    ensures ReaderTold(before + [a], Step(s, a).value)
  {
    assert a in before + [a];
  }

  /** The reader's next action. */
  function NextOfReader(r: Reader): Action {
    match r
    case Reading => Read("", false)
    case Sending(_, _) => TrySend
    case Dropping(_, _) => DropOldest
    case Resending(_, _) => TryAgain
    case _ => Return
  }

  /** The reader is never blocked by a full channel: whatever the pump does, it can take its next step. */
  lemma ReaderNeverBlocks(actions: seq<Action>, s: State)
    requires Run(actions) == Some(s) && !s.reader.Returned?
    ensures Step(s, NextOfReader(s.reader)).Some?
  {
  }

  // ---------------------------------------------------------------- what is dropped

  lemma {:induction false} NumbersClimb(items: seq<Item>, read: seq<string>)
    requires InOrder(items, read)
    ensures |items| <= |read| && (items != [] ==> items[|items| - 1].no + 1 >= |items|)
  {
    var n := |items| - 1;
    if n > 0 {
      assert forall i :: 0 <= i < n ==> items[..n][i] == items[i];
      NumbersClimb(items[..n], read);
      assert items[n - 1].no < items[n].no;
    }
  }

  /** Whoever is about to drop, or has dropped, has read more than the buffer holds. */
  predicate DropsWhenFull(s: State) {
    (s.reader.Dropping? || s.dropped != {}) ==> |s.read| > 1024
  }

  lemma FullBufferWasRead(s: State)
    requires Inv(s) && s.reader.Sending? && |s.lines| >= Capacity
    ensures |s.read| > 1024
  {
    NumbersClimb(Kept(s), s.read);
  }

  /** As long as no more than 1024 chunks have been read, none is dropped. */
  lemma {:induction false} ShortOutputIsNeverDropped(actions: seq<Action>)
    requires Run(actions).Some?
    ensures DropsWhenFull(Run(actions).value)
    ensures |Run(actions).value.read| <= 1024 ==> Run(actions).value.dropped == {}
  {
    if actions != [] {
      var before, a := actions[..|actions| - 1], actions[|actions| - 1];
      ShortOutputIsNeverDropped(before);
      RunKeepsInv(before);
      var s := Run(before).value;
      if s.reader.Sending? && |s.lines| >= Capacity {
        FullBufferWasRead(s);
      }
      StepDropsWhenFull(s, a);
    }
  }

  lemma StepDropsWhenFull(s: State, a: Action)
    requires DropsWhenFull(s) && Step(s, a).Some?
    requires s.reader.Sending? && |s.lines| >= Capacity ==> |s.read| > 1024
    ensures DropsWhenFull(Step(s, a).value)
  {
  }

  // ---------------------------------------------------------------- shutting down

  ghost predicate CanShutDown(actions: seq<Action>) {
    exists more :: ShutsDown(actions, more)
  }

  predicate ShutsDown(actions: seq<Action>, more: seq<Action>) {
    Run(actions + more).Some? && Run(actions + more).value.waiter.AllClosed?
  }

  function ReaderLeft(r: Reader): nat {
    match r
    case Sending(_, _) => 6
    case Dropping(_, _) => 5
    case Resending(_, _) => 4
    case Reading => 3
    case Returning => 2
    case Returned => 0
  }

  function WaiterLeft(w: Waiter): nat {
    match w
    case Waiting => 3
    case Exited => 2
    case LinesClosed => 1
    case AllClosed => 0
  }

  /** What brings the shutdown on: the reader's next step, a failing read at last, then the waiter's. */
  function ShutdownStep(s: State): Action {
    if s.reader.Reading? then Read("", true)
    else if !s.reader.Returned? then NextOfReader(s.reader)
    else match s.waiter
      case Waiting => Exit
      case Exited => CloseLines
      case _ => CloseDone
  }

  predicate Advances(s: State, t: Option<State>) {
    t.Some? && ReaderLeft(t.value.reader) + WaiterLeft(t.value.waiter) < ReaderLeft(s.reader) + WaiterLeft(s.waiter)
  }

  lemma ReaderAdvances(s: State)
    requires !s.reader.Returned?
    ensures Advances(s, StepReader(s, if s.reader.Reading? then Read("", true) else NextOfReader(s.reader)))
  {
  }

  lemma WaiterAdvances(s: State)
    requires s.reader.Returned? && !s.waiter.AllClosed?
    ensures Advances(s, StepWaiter(s, ShutdownStep(s)))
  {
  }

  lemma ShutdownAdvances(s: State)
    requires !s.waiter.AllClosed?
    ensures Advances(s, Step(s, ShutdownStep(s)))
  {
    if s.reader.Returned? {
      WaiterAdvances(s);
    } else {
      ReaderAdvances(s);
    }
  }

  lemma RunSnoc(actions: seq<Action>, a: Action)
    requires Run(actions).Some?
    ensures Run(actions + [a]) == Step(Run(actions).value, a)
  {
    assert (actions + [a])[..|actions|] == actions;
  }

  /** No interleaving gets stuck: from every reachable state reader and waiter can close both channels, whatever
      the pump does. */
  lemma {:induction false} EveryRunCanShutDown(actions: seq<Action>)
    requires Run(actions).Some?
    ensures CanShutDown(actions)
    decreases ReaderLeft(Run(actions).value.reader) + WaiterLeft(Run(actions).value.waiter)
  {
    var s := Run(actions).value;
    if s.waiter.AllClosed? {
      assert actions + [] == actions;
      assert ShutsDown(actions, []);
    } else {
      var a := ShutdownStep(s);
      ShutdownAdvances(s);
      RunSnoc(actions, a);
      EveryRunCanShutDown(actions + [a]);
      var more :| ShutsDown(actions + [a], more);
      Regroup(actions, [a], more);
      assert ShutsDown(actions, [a] + more);
    }
  }

  // ---------------------------------------------------------------- the pump's loop

  /** The choice that ends the session; an idle timer does so only after some output. */
  ghost predicate Ends(choices: seq<Choice>, i: nat)
    requires i < |choices|
  {
    match choices[i]
    case Line(_) => false
    case LinesEnded => true
    case Cancelled => true
    case IdleFired(_) => exists j :: 0 <= j < i && choices[j].Line?
    case Signalled(signal) => !signal.Unknown?
  }

  function LinesOf(choices: seq<Choice>): seq<Event> {
    if choices == [] then []
    else
      var c := choices[|choices| - 1];
      LinesOf(choices[..|choices| - 1]) + if c.Line? then [Stream(c.text)] else []
  }

  lemma {:induction false} SomeLine(choices: seq<Choice>)
    ensures LinesOf(choices) != [] <==> exists j :: 0 <= j < |choices| && choices[j].Line?
  {
    if choices != [] {
      var n := |choices| - 1;
      SomeLine(choices[..n]);
      assert forall j :: 0 <= j < n ==> choices[..n][j] == choices[j];
      assert choices[n].Line? ==> exists j :: 0 <= j < |choices| && choices[j].Line?;
    }
  }

  ghost predicate PumpAt(choices: seq<Choice>, i: nat, p: Pump)
    requires i <= |choices|
  {
    && p == Pump(LinesOf(choices[..i]) != [], false, LinesOf(choices[..i]))
    && forall j :: 0 <= j < i ==> !Ends(choices, j)
  }

  /** Choice `i` is the first that ends the session: the events are the chunks before it and one terminal
      event for it. */
  ghost predicate EndedAt(choices: seq<Choice>, i: nat, p: Pump)
    requires i < |choices|
  {
    && Ends(choices, i) && p.events != []
    && p.events[..|p.events| - 1] == LinesOf(choices[..i])
    && EndsWith(choices[i], p.events[|p.events| - 1])
    && forall j :: 0 <= j < i ==> !Ends(choices, j)
  }

  lemma PumpNext(choices: seq<Choice>, i: nat, p: Pump)
    requires i < |choices| && PumpAt(choices, i, p)
    ensures Ends(choices, i) <==> Reaction(p.sawOutput, choices[i]).Some? && !choices[i].Line?
    ensures !Ends(choices, i) ==> PumpAt(choices, i + 1, On(p, choices[i]))
  {
    Border(choices, i);
    SomeLine(choices[..i]);
    assert forall j :: 0 <= j < i ==> choices[..i][j] == choices[j];
    assert (choices[..i] + [choices[i]])[..i] == choices[..i];
  }

  /** The session: Stream events for the chunks, then exactly one terminal event, at the first choice that
      ends it; no terminal event while there is none. */
  method RunPump(choices: seq<Choice>) returns (p: Pump, used: nat)
    ensures used <= |choices|
    ensures p.finished ==> used > 0 && EndedAt(choices, used - 1, p)
    ensures !p.finished ==> used == |choices| && p.events == LinesOf(choices)
    ensures !p.finished ==> forall i :: 0 <= i < |choices| ==> !Ends(choices, i)
  {
    p := Pump(false, false, []);
    used := 0;
    while !p.finished && used < |choices|
      invariant used <= |choices|
      invariant !p.finished ==> PumpAt(choices, used, p)
      invariant p.finished ==> used > 0 && EndedAt(choices, used - 1, p)
      decreases |choices| - used + if p.finished then 0 else 1
    {
      PumpNext(choices, used, p);
      ReactionEnds(p.sawOutput, choices[used]);
      var e := Reaction(p.sawOutput, choices[used]);
      if e.Some? {
        p := Pump(p.sawOutput || e.value.Stream?, !e.value.Stream?, p.events + [e.value]);
      }
      used := used + 1;
    }
    assert choices[..|choices|] == choices;
  }
}
