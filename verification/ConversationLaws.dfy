/** What a run of the conversation loop amounts to, said of the chunks, the requests and the events themselves:
    why it stopped, what it counted, what each request and each event came from. */
module ConversationLaws {
  import opened Common
  import opened Provider
  import opened Conversation

  // ---------------------------------------------------------------- reading one more chunk

  lemma {:induction false} StreamAppend(a: seq<Chunk>, b: seq<Chunk>)
    ensures TextOf(a + b) == TextOf(a) + TextOf(b) && CallsOf(a + b) == CallsOf(a) + CallsOf(b)
    ensures ChunkEvents(a + b) == ChunkEvents(a) + ChunkEvents(b)
  {
    if b == [] {
      assert a + b == a;
    } else {
      var init, last := b[..|b| - 1], b[|b| - 1];
      assert a + b == (a + init) + [last] && b == init + [last];
      StreamAppend(a, init);
      CollectSnoc(a + init, last);
      CollectSnoc(init, last);
    }
  }

  /** What a chunk adds to the text, the calls and the events of its stream, wherever it stands. */
  lemma EachChunkAddsItsOwn(a: seq<Chunk>, c: Chunk, b: seq<Chunk>)
    ensures TextOf(a + [c] + b) == TextOf(a) + (if c.TextChunk? then c.text else "") + TextOf(b)
    ensures CallsOf(a + [c] + b)
         == CallsOf(a) + (if c.ToolUseChunk? && c.call.Some? then [c.call.value] else []) + CallsOf(b)
    ensures ChunkEvents(a + [c] + b) == ChunkEvents(a) + EventOf(c) + ChunkEvents(b)
  {
    StreamAppend(a + [c], b);
    CollectSnoc(a, c);
    assert [c][..0] == [];
  }

  function EventOf(c: Chunk): seq<Event> {
    if c.TextChunk? then [Stream(c.text)]
    else if c.ToolUseChunk? && c.call.Some? then [ToolUse(c.call.value)]
    else []
  }

  lemma NoChunksSayNothing()
    ensures TextOf([]) == "" && CallsOf([]) == [] && ChunkEvents([]) == []
  {
  }

  // ---------------------------------------------------------------- the tokens

  predicate NoDoneAfter(chunks: seq<Chunk>, i: int) {
    forall j :: 0 <= j < |chunks| && i < j ==> !chunks[j].DoneChunk?
  }

  /** The stream reports `u`: the usage of its last Done chunk, or nothing if there is none or it has none. */
  ghost predicate Reported(chunks: seq<Chunk>, u: Usage) {
    || (NoDoneAfter(chunks, -1) && u == Usage(0, 0))
    || (exists i :: 0 <= i < |chunks| && chunks[i].DoneChunk? && NoDoneAfter(chunks, i)
                    && u == if chunks[i].usage.Some? then chunks[i].usage.value else Usage(0, 0))
  }

  ghost predicate ReportedIn(w: World, t: nat, u: Usage) {
    match w.turn(t)
    case Chunks(chunks) => Reported(chunks, u)
    case _ => u == Usage(0, 0)
  }

  /** `us` are the usages that the first turns report. */
  ghost predicate Reports(w: World, us: seq<Usage>) {
    forall t :: 0 <= t < |us| ==> ReportedIn(w, t, us[t])
  }

  function Sum(us: seq<Usage>): Usage {
    if us == [] then Usage(0, 0) else Usage(us[0].input + Sum(us[1..]).input, us[0].output + Sum(us[1..]).output)
  }

  lemma {:induction false} SumSnoc(us: seq<Usage>, u: Usage)
    ensures Sum(us + [u]) == Usage(Sum(us).input + u.input, Sum(us).output + u.output)
  {
    if us == [] {
      assert [u][1..] == [];
      assert us + [u] == [u];
    } else {
      assert (us + [u])[1..] == us[1..] + [u];
      SumSnoc(us[1..], u);
    }
  }

  lemma {:induction false} NoDoneNoUsage(chunks: seq<Chunk>)
    requires NoDoneAfter(chunks, -1)
    ensures UsageOf(chunks) == None
  {
    if chunks != [] {
      NoDoneNoUsage(chunks[..|chunks| - 1]);
    }
  }

  lemma {:induction false} LastDoneCounts(chunks: seq<Chunk>, i: nat)
    requires i < |chunks| && chunks[i].DoneChunk? && NoDoneAfter(chunks, i)
    ensures UsageOf(chunks) == chunks[i].usage
  {
    if i < |chunks| - 1 {
      LastDoneCounts(chunks[..|chunks| - 1], i);
    }
  }

  lemma LastDoneIsReported(chunks: seq<Chunk>, u: Usage)
    requires Reported(chunks, u)
    ensures u == if UsageOf(chunks).Some? then UsageOf(chunks).value else Usage(0, 0)
  {
    if NoDoneAfter(chunks, -1) {
      NoDoneNoUsage(chunks);
    } else {
      var i :| 0 <= i < |chunks| && chunks[i].DoneChunk? && NoDoneAfter(chunks, i)
               && u == if chunks[i].usage.Some? then chunks[i].usage.value else Usage(0, 0);
      LastDoneCounts(chunks, i);
    }
  }

  lemma TurnUsageIsReported(w: World, t: nat, u: Usage)
    requires ReportedIn(w, t, u)
    ensures TurnUsage(w, t) == u
  {
    if w.turn(t).Chunks? {
      LastDoneIsReported(w.turn(t).chunks, u);
    }
  }

  lemma {:induction false} TotalIsTheSum(w: World, us: seq<Usage>)
    requires Reports(w, us)
    ensures Total(w, |us|) == Sum(us)
  {
    if us != [] {
      var n := |us| - 1;
      TotalIsTheSum(w, us[..n]);
      TurnUsageIsReported(w, n, us[n]);
      SumSnoc(us[..n], us[n]);
      assert us == us[..n] + [us[n]];
    }
  }

  function Tokens(u: Usage): int {
    u.input + u.output
  }

  lemma CompleteIsTheTotal(cfg: Config, prompt: string, w: World, r: Outcome)
    requires OutcomeOk(cfg, prompt, w, r) && r.last.Complete?
    ensures var u := Total(w, |r.requests|); r.last == Complete(u.input, u.output, u.input + u.output)
  {
  }

  lemma BudgetErrorIsTheTotal(cfg: Config, prompt: string, w: World, r: Outcome)
    requires OutcomeOk(cfg, prompt, w, r) && r.last.Error? && r.last.failure.BudgetExceeded?
    ensures var u := Total(w, |r.requests|);
            && r.last.failure == BudgetExceeded(u.input + u.output, cfg.tokenBudget)
            && 0 < cfg.tokenBudget <= u.input + u.output
  {
  }

  lemma RequestIsHistory(cfg: Config, prompt: string, w: World, r: Outcome, k: nat)
    requires OutcomeOk(cfg, prompt, w, r) && k < |r.requests|
    ensures r.requests[k] == History(cfg, prompt, w, k)
    ensures cfg.tokenBudget > 0 ==> Total(w, k).input + Total(w, k).output < cfg.tokenBudget
    ensures !w.interrupted(k, 0)
  {
    assert RequestOk(cfg, prompt, w, r.requests[k], k);
  }

  lemma TurnBeforeRequest(cfg: Config, prompt: string, w: World, r: Outcome, k: nat)
    requires OutcomeOk(cfg, prompt, w, r) && 0 < k < |r.requests|
    ensures w.turn(k - 1).Chunks?
  {
    assert GoesOn(w, k - 1);
  }

  lemma TotalBeforeRequest(cfg: Config, prompt: string, w: World, r: Outcome, k: nat)
    requires OutcomeOk(cfg, prompt, w, r) && cfg.tokenBudget > 0 && k < |r.requests|
    ensures Total(w, k).input + Total(w, k).output < cfg.tokenBudget
  {
    RequestIsHistory(cfg, prompt, w, r, k);
  }

  /** Before each turn the sum so far is below the budget. */
  ghost predicate StaysBelow(us: seq<Usage>, budget: int) {
    forall k :: 0 <= k < |us| ==> Tokens(Sum(us[..k])) < budget
  }

  /** Each request was made while the sum over the turns before it was below a positive budget. */
  lemma RequestsStayBelowTheBudget(cfg: Config, prompt: string, w: World, r: Outcome, us: seq<Usage>)
    requires OutcomeOk(cfg, prompt, w, r) && cfg.tokenBudget > 0 && |us| == |r.requests| && Reports(w, us)
    ensures StaysBelow(us, cfg.tokenBudget)
  {
    forall k | 0 <= k < |us| ensures Tokens(Sum(us[..k])) < cfg.tokenBudget {
      TotalBeforeRequest(cfg, prompt, w, r, k);
      TotalIsTheSum(w, us[..k]);
    }
  }

  /** Complete has the sums of what all turns report. */
  lemma CompleteSumsTheTurns(cfg: Config, prompt: string, w: World, r: Outcome, us: seq<Usage>)
    requires OutcomeOk(cfg, prompt, w, r) && r.last.Complete? && |us| == |r.requests| && Reports(w, us)
    ensures r.last == Complete(Sum(us).input, Sum(us).output, Sum(us).input + Sum(us).output)
  {
    TotalIsTheSum(w, us);
    CompleteIsTheTotal(cfg, prompt, w, r);
  }

  /** A budget error has the sum over the turns, which has reached the budget. */
  lemma BudgetErrorSumsTheTurns(cfg: Config, prompt: string, w: World, r: Outcome, us: seq<Usage>)
    requires OutcomeOk(cfg, prompt, w, r) && r.last.Error? && r.last.failure.BudgetExceeded?
    requires |us| == |r.requests| && Reports(w, us)
    ensures r.last.failure == BudgetExceeded(Tokens(Sum(us)), cfg.tokenBudget)
    ensures 0 < cfg.tokenBudget <= Tokens(Sum(us))
  {
    TotalIsTheSum(w, us);
    BudgetErrorIsTheTotal(cfg, prompt, w, r);
  }

  lemma InterruptIsWithinTotal(cfg: Config, prompt: string, w: World, r: Outcome)
    requires OutcomeOk(cfg, prompt, w, r) && r.last == Interrupted && |r.requests| == r.done
    ensures cfg.tokenBudget > 0 ==> Total(w, r.done).input + Total(w, r.done).output < cfg.tokenBudget
  {
  }

  /** A run interrupted between turns is within its budget: the budget is checked first. */
  lemma InterruptIsWithinTheBudget(cfg: Config, prompt: string, w: World, r: Outcome, us: seq<Usage>)
    requires OutcomeOk(cfg, prompt, w, r) && r.last == Interrupted && |us| == |r.requests| == r.done && Reports(w, us)
    ensures cfg.tokenBudget > 0 ==> Tokens(Sum(us)) < cfg.tokenBudget
  {
    InterruptIsWithinTotal(cfg, prompt, w, r);
    TotalIsTheSum(w, us);
  }

  // ---------------------------------------------------------------- why it stopped

  /** Up to chunk `n` of turn `t` there was no interrupt and no error chunk. */
  ghost predicate Undisturbed(w: World, t: nat, chunks: seq<Chunk>, n: nat)
    requires n <= |chunks|
  {
    forall j :: 0 <= j < n ==> UndisturbedAt(w, t, chunks[j], j)
  }

  predicate UndisturbedAt(w: World, t: nat, c: Chunk, j: nat) {
    !w.interrupted(t, j + 1) && !c.ErrorChunk?
  }

  predicate AsksForTools(chunks: seq<Chunk>) {
    exists j :: 0 <= j < |chunks| && chunks[j].ToolUseChunk?
  }

  /** Turn `t` was not interrupted, its request and its stream went well, and it asked for tools. */
  ghost predicate Continued(w: World, t: nat) {
    && !w.interrupted(t, 0) && w.turn(t).Chunks?
    && Undisturbed(w, t, w.turn(t).chunks, |w.turn(t).chunks|) && AsksForTools(w.turn(t).chunks)
  }

  ghost predicate EndedByInterrupt(w: World, t: nat, chunks: seq<Chunk>, j: nat) {
    j < |chunks| && Undisturbed(w, t, chunks, j) && w.interrupted(t, j + 1)
  }

  ghost predicate EndedByError(w: World, t: nat, chunks: seq<Chunk>, j: nat, m: string) {
    j < |chunks| && Undisturbed(w, t, chunks, j) && !w.interrupted(t, j + 1) && chunks[j] == ErrorChunk(m)
  }

  /** What must have happened in the last turn, number `t`, for a run to end with this event in it. */
  ghost predicate Because(w: World, t: nat, last: Event) {
    match w.turn(t)
    case BuildError => last == Error(BuildFailed(t + 1))
    case RequestError => last == Error(RequestFailed)
    case Status(code) => last == Error(BadStatus(code))
    case ParseError => last == Error(ParseFailed)
    case Chunks(chunks) =>
      || (last.Complete? && Undisturbed(w, t, chunks, |chunks|) && !AsksForTools(chunks))
      || (last == Interrupted && exists j: nat :: EndedByInterrupt(w, t, chunks, j))
      || (exists j: nat, m :: last == Error(StreamError(m)) && EndedByError(w, t, chunks, j, m))
  }

  /** What must have happened between turns, `n` of them done. */
  ghost predicate BecauseBetween(cfg: Config, w: World, n: nat, last: Event) {
    || (last == Interrupted && w.interrupted(n, 0) && n < cfg.maxTurns)
    || (last.Error? && last.failure.BudgetExceeded? && n < cfg.maxTurns)
    || (last == Error(TooManyTurns(cfg.maxTurns)) && n == if cfg.maxTurns > 0 then cfg.maxTurns else 0)
  }

  lemma PassingIsUndisturbed(w: World, t: nat, chunks: seq<Chunk>, n: nat)
    requires n <= |chunks| && forall j :: 0 <= j < n ==> Passes(w, t, chunks, j)
    ensures Undisturbed(w, t, chunks, n)
  {
    forall j | 0 <= j < n ensures UndisturbedAt(w, t, chunks[j], j) {
      assert Passes(w, t, chunks, j);
    }
  }

  lemma StoppedBecause(w: World, t: nat, tail: seq<Event>, last: Event)
    requires StopsInTurn(w, t, tail, last)
    ensures Because(w, t, last)
  {
    if w.turn(t).Chunks? {
      var chunks := w.turn(t).chunks;
      var n: nat :| n <= |chunks| && StopsAtChunk(w, t, chunks, n, tail, last);
      PassingIsUndisturbed(w, t, chunks, n);
      if n < |chunks| {
        if w.interrupted(t, n + 1) {
          assert EndedByInterrupt(w, t, chunks, n);
        } else {
          assert EndedByError(w, t, chunks, n, chunks[n].message);
        }
      }
    }
  }

  /** Every turn but the last one went well and asked for tools; the last event is the one that what happened
      then, in the last turn or after it, calls for. */
  lemma WhyItStopped(cfg: Config, prompt: string, w: World, r: Outcome)
    requires OutcomeOk(cfg, prompt, w, r)
    ensures forall t :: 0 <= t < r.done ==> Continued(w, t)
    ensures |r.requests| == r.done ==> BecauseBetween(cfg, w, r.done, r.last)
    ensures |r.requests| != r.done ==>
              |r.requests| == r.done + 1 <= cfg.maxTurns && !w.interrupted(r.done, 0) && Because(w, r.done, r.last)
  {
    forall t | 0 <= t < r.done ensures Continued(w, t) {
      RequestIsHistory(cfg, prompt, w, r, t);
      assert GoesOn(w, t);
      PassingIsUndisturbed(w, t, w.turn(t).chunks, |w.turn(t).chunks|);
    }
    if |r.requests| != r.done {
      RequestIsHistory(cfg, prompt, w, r, r.done);
      StoppedBecause(w, r.done, r.tail, r.last);
    }
  }

  // ---------------------------------------------------------------- what the model is sent, what the user sees

  /** `after` is `before` and a turn: its text and its calls in one message, then what each call yielded. */
  ghost predicate AddsTurn(before: seq<Message>, after: seq<Message>, w: World, t: nat) {
    && w.turn(t).Chunks?
    && var calls, n := CallsOf(w.turn(t).chunks), |before|;
       && |after| > n && after[..n] == before && after[n] == Assistant(TextOf(w.turn(t).chunks), calls)
       && AnswersAll(after[n + 1..], calls, w, t)
  }

  /** One message per call, in their order, with what the call yielded. */
  ghost predicate AnswersAll(ms: seq<Message>, calls: seq<ToolCall>, w: World, t: nat) {
    && |ms| == |calls|
    && forall i :: 0 <= i < |calls| ==> ms[i] == ToolResult(calls[i].id, w.tool(t, i).0, w.tool(t, i).1)
  }

  lemma FirstRequest(cfg: Config, prompt: string, w: World, r: Outcome)
    requires OutcomeOk(cfg, prompt, w, r) && r.requests != []
    ensures r.requests[0] == [System(cfg.systemPrompt), User(prompt)]
  {
    RequestIsHistory(cfg, prompt, w, r, 0);
  }

  lemma TwoRequests(cfg: Config, prompt: string, w: World, r: Outcome, t: nat)
      returns (before: seq<Message>, after: seq<Message>)
    requires OutcomeOk(cfg, prompt, w, r) && t + 1 < |r.requests|
    ensures before == r.requests[t] && after == r.requests[t + 1] && w.turn(t).Chunks?
    ensures RequestOk(cfg, prompt, w, before, t) && RequestOk(cfg, prompt, w, after, t + 1)
  {
    before, after := r.requests[t], r.requests[t + 1];
    TurnBeforeRequest(cfg, prompt, w, r, t + 1);
  }

  /** Each request after the first adds one turn to the one before. */
  lemma EachRequestAddsATurn(cfg: Config, prompt: string, w: World, r: Outcome, t: nat)
    requires OutcomeOk(cfg, prompt, w, r) && t + 1 < |r.requests|
    ensures AddsTurn(r.requests[t], r.requests[t + 1], w, t)
  {
    var before, after := TwoRequests(cfg, prompt, w, r, t);
    HistoryAddsATurn(cfg, prompt, w, t, before, after);
  }

  lemma HistoryAddsATurn(cfg: Config, prompt: string, w: World, t: nat, before: seq<Message>, after: seq<Message>)
    requires w.turn(t).Chunks?
    requires RequestOk(cfg, prompt, w, before, t) && RequestOk(cfg, prompt, w, after, t + 1)
    ensures AddsTurn(before, after, w, t)
  {
    var block := Block(w, t);
    HistoryNext(cfg, prompt, w, t);
    assert (before + block)[..|before|] == before;
    assert (before + block)[|before| + 1..] == Results(w, t, CallsOf(w.turn(t).chunks));
  }

  function TurnStart(w: World, t: nat): nat {
    |EventLog(w, t)|
  }

  lemma Longer<T>(a: seq<T>, rest: seq<T>, b: seq<T>, more: seq<T>, c: seq<T>)
    requires b == a + rest && c == b + more
    ensures c == a + (rest + more)
  {
  }

  lemma NothingLonger<T>(a: seq<T>)
    ensures a == a + []
  {
  }

  lemma {:induction false} RestOfTheLog(w: World, t: nat, n: nat) returns (rest: seq<Event>)
    requires t <= n
    ensures EventLog(w, n) == EventLog(w, t) + rest
  {
    if t == n {
      rest := [];
      NothingLonger(EventLog(w, t));
    } else {
      var last := n - 1;
      var before := RestOfTheLog(w, t, last);
      EventLogNext(w, last);
      Longer(EventLog(w, t), before, EventLog(w, last), TurnEvents(w, last), EventLog(w, n));
      rest := before + TurnEvents(w, last);
    }
  }

  lemma OutcomeLog(cfg: Config, prompt: string, w: World, r: Outcome) returns (more: seq<Event>)
    requires OutcomeOk(cfg, prompt, w, r)
    ensures r.events == EventLog(w, r.done) + more
  {
    more := r.tail + [r.last];
  }

  lemma TurnWentOn(cfg: Config, prompt: string, w: World, r: Outcome, t: nat)
    requires OutcomeOk(cfg, prompt, w, r) && t < r.done
    ensures w.turn(t).Chunks?
  {
    assert GoesOn(w, t);
  }

  /** From `start` on the log has the events of the turn's chunks, then one per call with whether it failed. */
  ghost predicate HasTurn(events: seq<Event>, start: nat, end: nat, w: World, t: nat) {
    && w.turn(t).Chunks?
    && var calls, streamed := CallsOf(w.turn(t).chunks), ChunkEvents(w.turn(t).chunks);
       && start + |streamed| + |calls| == end <= |events|
       && events[start..start + |streamed|] == streamed
       && AllDone(events[start + |streamed|..end], calls, w, t)
  }

  ghost predicate AllDone(events: seq<Event>, calls: seq<ToolCall>, w: World, t: nat) {
    |events| == |calls| && forall i :: 0 <= i < |calls| ==> events[i] == ToolDone(calls[i], w.tool(t, i).1)
  }

  lemma LogHasTurn(w: World, t: nat, more: seq<Event>, all: seq<Event>)
    requires w.turn(t).Chunks? && all == EventLog(w, t + 1) + more
    ensures HasTurn(all, TurnStart(w, t), TurnStart(w, t + 1), w, t)
  {
    EventLogNext(w, t);
    Parts(EventLog(w, t), ChunkEvents(w.turn(t).chunks), ResultEvents(w, t, CallsOf(w.turn(t).chunks)), more, all);
  }

  lemma TurnInLog(w: World, done: nat, t: nat, more: seq<Event>, events: seq<Event>)
    requires t < done && w.turn(t).Chunks? && events == EventLog(w, done) + more
    ensures HasTurn(events, TurnStart(w, t), TurnStart(w, t + 1), w, t)
  {
    var rest := RestOfTheLog(w, t + 1, done);
    Longer(EventLog(w, t + 1), rest, EventLog(w, done), more, events);
    LogHasTurn(w, t, rest + more, events);
  }

  /** The first turn's events start right after Init. */
  lemma FirstTurnStarts(w: World)
    ensures TurnStart(w, 0) == 1
  {
  }

  /** The events after Init are, turn by turn, those of the chunks and of the calls. */
  lemma EachTurnHasItsEvents(cfg: Config, prompt: string, w: World, r: Outcome, t: nat)
    requires OutcomeOk(cfg, prompt, w, r) && t < r.done
    ensures HasTurn(r.events, TurnStart(w, t), TurnStart(w, t + 1), w, t)
  {
    var more := OutcomeLog(cfg, prompt, w, r);
    TurnWentOn(cfg, prompt, w, r, t);
    TurnInLog(w, r.done, t, more, r.events);
  }

  /** A run that completes ends with the events of its last stream, its whole text and Complete. */
  lemma LastTurnHasItsEvents(cfg: Config, prompt: string, w: World, r: Outcome)
    requires OutcomeOk(cfg, prompt, w, r) && r.last.Complete?
    ensures |r.requests| == r.done + 1 && w.turn(r.done).Chunks?
    ensures var chunks := w.turn(r.done).chunks;
            r.events[TurnStart(w, r.done)..] == ChunkEvents(chunks) + [AssistantSaid(TextOf(chunks)), r.last]
  {
  }

  // ---------------------------------------------------------------- delivery

  /** With room for every event all of them are delivered, with room for none only the control events. */
  lemma {:induction false} RoomDecides(events: seq<Event>, room: nat -> bool)
    ensures (forall i :: 0 <= i < |events| ==> room(i)) ==> Delivered(events, room) == events
    ensures (forall i :: 0 <= i < |events| && !room(i) ==> Control(events[i])) ==> Delivered(events, room) == events
    ensures forall e :: e in Delivered(events, room) ==> e in events
  {
    if events != [] {
      RoomDecides(events[..|events| - 1], room);
      assert events == events[..|events| - 1] + [events[|events| - 1]];
    }
  }
}
