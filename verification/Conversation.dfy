/** The multi-turn loop of the API agents (agent/apiagent/base.go).

    What the loop cannot control is a parameter, `World`: how each turn's request fares and which chunks
    it streams, what each read of the interrupt flag finds and what each tool returns.  A statement about
    every `World` covers every provider behaviour and every timing of an interrupt.  Whether the event
    channel has room for an optional event is a parameter of `Delivered`. */
module Conversation {
  import opened Common
  import opened Provider

  datatype Message =
    | System(text: string)
    | User(text: string)
    | Assistant(text: string, calls: seq<ToolCall>)
    | ToolResult(callId: string, content: string, isError: bool)

  datatype Failure =
    | BudgetExceeded(used: int, budget: int)
    | BuildFailed(turn: int)
    | RequestFailed
    | BadStatus(code: int)
    | ParseFailed
    | StreamError(message: string)
    | TooManyTurns(maxTurns: int)

  datatype Event =
    | Init
    | Stream(text: string)
    | ToolUse(call: ToolCall)
    | ToolDone(call: ToolCall, isError: bool)
    | AssistantSaid(text: string)
    | Complete(input: int, output: int, total: int)
    | Error(failure: Failure)
    | Interrupted

  /** How one turn's request fares. */
  datatype Turn =
    | BuildError
    | RequestError
    | Status(code: int)        // any status but 200
    | ParseError
    | Chunks(chunks: seq<Chunk>)

  datatype Config = Config(systemPrompt: string, maxTurns: int, tokenBudget: int)

  /** `interrupted(t, 0)` is the read before turn t, `interrupted(t, j + 1)` the one at its chunk j;
      `tool(t, i)` is what the i-th call of turn t yields: its content and whether it is an error. */
  datatype World = World(turn: nat -> Turn, interrupted: (nat, nat) -> bool, tool: (nat, nat) -> (string, bool))

  predicate Terminal(e: Event) {
    e.Complete? || e.Error? || e.Interrupted?
  }

  /** Control events block until delivered, the others are dropped when the channel is full. */
  predicate Control(e: Event) {
    Terminal(e) || e.Init?
  }

  // ---------------------------------------------------------------- what one stream amounts to

  function TextOf(chunks: seq<Chunk>): string {
    if chunks == [] then ""
    else
      var c := chunks[|chunks| - 1];
      TextOf(chunks[..|chunks| - 1]) + if c.TextChunk? then c.text else ""
  }

  function CallsOf(chunks: seq<Chunk>): seq<ToolCall> {
    if chunks == [] then []
    else
      var c := chunks[|chunks| - 1];
      CallsOf(chunks[..|chunks| - 1]) + if c.ToolUseChunk? && c.call.Some? then [c.call.value] else []
  }

  predicate HadToolUse(chunks: seq<Chunk>) {
    exists i :: 0 <= i < |chunks| && chunks[i].ToolUseChunk?
  }

  /** The usage of the last final chunk. */
  function UsageOf(chunks: seq<Chunk>): Option<Usage> {
    if chunks == [] then None
    else if chunks[|chunks| - 1].DoneChunk? then chunks[|chunks| - 1].usage
    else UsageOf(chunks[..|chunks| - 1])
  }

  function ChunkEvents(chunks: seq<Chunk>): seq<Event> {
    if chunks == [] then []
    else
      var c := chunks[|chunks| - 1];
      ChunkEvents(chunks[..|chunks| - 1])
      + (match c
         case TextChunk(text) => [Stream(text)]
         case ToolUseChunk(Some(call)) => [ToolUse(call)]
         case _ => [])
  }

  datatype StreamEnd = Finished | WasInterrupted | Failed(message: string)

  datatype Collected = Collected(text: string, calls: seq<ToolCall>, hadToolUse: bool, usage: Option<Usage>)

  function Collect(chunks: seq<Chunk>): Collected {
    Collected(TextOf(chunks), CallsOf(chunks), HadToolUse(chunks), UsageOf(chunks))
  }

  lemma CollectSnoc(chunks: seq<Chunk>, c: Chunk)
    ensures TextOf(chunks + [c]) == TextOf(chunks) + if c.TextChunk? then c.text else ""
    ensures CallsOf(chunks + [c]) == CallsOf(chunks) + if c.ToolUseChunk? && c.call.Some? then [c.call.value] else []
    ensures HadToolUse(chunks + [c]) <==> HadToolUse(chunks) || c.ToolUseChunk?
    ensures UsageOf(chunks + [c]) == if c.DoneChunk? then c.usage else UsageOf(chunks)
    ensures ChunkEvents(chunks + [c]) == ChunkEvents(chunks) + ChunkEvents([c])
  {
    var all := chunks + [c];
    assert all[..|chunks|] == chunks;
    assert [c][..0] == [];
    if HadToolUse(chunks) {
      var i :| 0 <= i < |chunks| && chunks[i].ToolUseChunk?;
      assert all[i].ToolUseChunk?;
    }
    if c.ToolUseChunk? {
      assert all[|chunks|].ToolUseChunk?;
    }
  }

  /** Chunk `j` neither finds the interrupt flag set nor is an error. */
  predicate Passes(w: World, t: nat, chunks: seq<Chunk>, j: nat)
    requires j < |chunks|
  {
    !w.interrupted(t, j + 1) && !chunks[j].ErrorChunk?
  }

  /** The inner loop over the chunks of turn `t`: how it ended, after how many chunks, and what it
      gathered from them. */
  method ReadStream(w: World, t: nat, chunks: seq<Chunk>)
    returns (end: StreamEnd, n: nat, got: Collected, events: seq<Event>)
    ensures n <= |chunks| && got == Collect(chunks[..n]) && events == ChunkEvents(chunks[..n])
    ensures forall j :: 0 <= j < n ==> Passes(w, t, chunks, j)
    ensures match end
      case Finished => n == |chunks|
      case WasInterrupted => n < |chunks| && w.interrupted(t, n + 1)
      case Failed(m) => n < |chunks| && !w.interrupted(t, n + 1) && chunks[n] == ErrorChunk(m)
  {
    var text, calls, hadToolUse, usage := "", [], false, None;
    end, n, events := Finished, 0, [];
    while n < |chunks|
      invariant n <= |chunks| && events == ChunkEvents(chunks[..n])
      invariant Collected(text, calls, hadToolUse, usage) == Collect(chunks[..n])
      invariant forall j :: 0 <= j < n ==> Passes(w, t, chunks, j)
    {
      if w.interrupted(t, n + 1) {
        end := WasInterrupted;
        break;
      }
      var chunk := chunks[n];
      CollectSnoc(chunks[..n], chunk);
      assert chunks[..n + 1] == chunks[..n] + [chunk];
      match chunk {
        case TextChunk(s) =>
          text := text + s;
          events := events + [Stream(s)];
        case ToolUseChunk(call) =>
          hadToolUse := true;
          if call.Some? {
            calls := calls + [call.value];
            events := events + [ToolUse(call.value)];
          }
        case ErrorChunk(m) =>
          end := Failed(m);
          break;
        case DoneChunk(u) =>
          usage := u;
      }
      assert Passes(w, t, chunks, n);
      n := n + 1;
    }
    got := Collected(text, calls, hadToolUse, usage);
    assert end == Finished ==> chunks[..n] == chunks;
  }

  /** The answers to the calls of turn `t`, one each, in the order of the calls. */
  function Results(w: World, t: nat, calls: seq<ToolCall>): (r: seq<Message>)
    ensures |r| == |calls|
    ensures forall i :: 0 <= i < |r| ==> r[i] == ToolResult(calls[i].id, w.tool(t, i).0, w.tool(t, i).1)
  {
    seq(|calls|, i requires 0 <= i < |calls| => ToolResult(calls[i].id, w.tool(t, i).0, w.tool(t, i).1))
  }

  function ResultEvents(w: World, t: nat, calls: seq<ToolCall>): (r: seq<Event>)
    ensures |r| == |calls|
    ensures forall i :: 0 <= i < |r| ==> r[i] == ToolDone(calls[i], w.tool(t, i).1)
  {
    seq(|calls|, i requires 0 <= i < |calls| => ToolDone(calls[i], w.tool(t, i).1))
  }

  method RunTools(w: World, t: nat, calls: seq<ToolCall>) returns (results: seq<Message>, events: seq<Event>)
    ensures results == Results(w, t, calls) && events == ResultEvents(w, t, calls)
  {
    results, events := [], [];
    for i := 0 to |calls|
      invariant results == Results(w, t, calls)[..i] && events == ResultEvents(w, t, calls)[..i]
    {
      var (content, isError) := w.tool(t, i);
      results := results + [ToolResult(calls[i].id, content, isError)];
      events := events + [ToolDone(calls[i], isError)];
    }
  }

  // ---------------------------------------------------------------- what the first turns amount to

  /** What turn `t` adds to the conversation when it ends with tool calls. */
  function Block(w: World, t: nat): seq<Message> {
    match w.turn(t)
    case Chunks(chunks) => [Assistant(TextOf(chunks), CallsOf(chunks))] + Results(w, t, CallsOf(chunks))
    case _ => []
  }

  /** The conversation sent with request `t`. */
  function History(cfg: Config, prompt: string, w: World, t: nat): seq<Message> {
    if t == 0 then [System(cfg.systemPrompt), User(prompt)]
    else History(cfg, prompt, w, t - 1) + Block(w, t - 1)
  }

  function TurnUsage(w: World, t: nat): Usage {
    match w.turn(t)
    case Chunks(chunks) => if UsageOf(chunks).Some? then UsageOf(chunks).value else Usage(0, 0)
    case _ => Usage(0, 0)
  }

  /** The tokens of the first `t` turns. */
  function Total(w: World, t: nat): Usage {
    if t == 0 then Usage(0, 0)
    else
      var before, u := Total(w, t - 1), TurnUsage(w, t - 1);
      Usage(before.input + u.input, before.output + u.output)
  }

  function Used(w: World, t: nat): int {
    Total(w, t).input + Total(w, t).output
  }

  function TurnEvents(w: World, t: nat): seq<Event> {
    match w.turn(t)
    case Chunks(chunks) => ChunkEvents(chunks) + ResultEvents(w, t, CallsOf(chunks))
    case _ => []
  }

  function EventLog(w: World, t: nat): seq<Event> {
    if t == 0 then [Init] else EventLog(w, t - 1) + TurnEvents(w, t - 1)
  }

  // ---------------------------------------------------------------- the loop

  predicate WithinBudget(cfg: Config, w: World, t: nat) {
    cfg.tokenBudget > 0 ==> Used(w, t) < cfg.tokenBudget
  }

  function Bound(cfg: Config): nat {
    if cfg.maxTurns > 0 then cfg.maxTurns else 0
  }

  /** Turn `t` ran to its end and asked for tools, so the loop goes on. */
  ghost predicate GoesOn(w: World, t: nat) {
    && w.turn(t).Chunks? && HadToolUse(w.turn(t).chunks)
    && forall j :: 0 <= j < |w.turn(t).chunks| ==> Passes(w, t, w.turn(t).chunks, j)
  }

  /** Request `k` carried the conversation so far, was within the budget and not interrupted before. */
  ghost predicate RequestOk(cfg: Config, prompt: string, w: World, request: seq<Message>, k: nat) {
    request == History(cfg, prompt, w, k) && WithinBudget(cfg, w, k) && !w.interrupted(k, 0)
  }

  ghost predicate RequestsOk(cfg: Config, prompt: string, w: World, requests: seq<seq<Message>>) {
    |requests| <= Bound(cfg) && forall k :: 0 <= k < |requests| ==> RequestOk(cfg, prompt, w, requests[k], k)
  }

  ghost predicate AllGoOn(w: World, done: nat) {
    forall k :: 0 <= k < done ==> GoesOn(w, k)
  }

  /** Why the loop may end before another request, after `done` turns. */
  ghost predicate StopsBetweenTurns(cfg: Config, w: World, done: nat, last: Event) {
    || (last == Error(BudgetExceeded(Used(w, done), cfg.tokenBudget)) && !WithinBudget(cfg, w, done)
      && done < Bound(cfg))
    || (last == Interrupted && w.interrupted(done, 0) && WithinBudget(cfg, w, done) && done < Bound(cfg))
    || (last == Error(TooManyTurns(cfg.maxTurns)) && done == Bound(cfg))
  }

  /** Why the loop may end in turn `t`; `tail` are the events of that turn before the terminal one. */
  ghost predicate StopsInTurn(w: World, t: nat, tail: seq<Event>, last: Event) {
    match w.turn(t)
    case BuildError => tail == [] && last == Error(BuildFailed(t + 1))
    case RequestError => tail == [] && last == Error(RequestFailed)
    case Status(code) => tail == [] && last == Error(BadStatus(code))
    case ParseError => tail == [] && last == Error(ParseFailed)
    case Chunks(chunks) => (exists n: nat :: n <= |chunks| && StopsAtChunk(w, t, chunks, n, tail, last))
  }

  /** The stream passed its first `n` chunks and then ended, was interrupted or failed. */
  ghost predicate StopsAtChunk(w: World, t: nat, chunks: seq<Chunk>, n: nat, tail: seq<Event>, last: Event)
    requires n <= |chunks|
  {
    && (forall j :: 0 <= j < n ==> Passes(w, t, chunks, j))
    && if n == |chunks| then
         && !HadToolUse(chunks)
         && tail == ChunkEvents(chunks) + [AssistantSaid(TextOf(chunks))]
         && last == Complete(Total(w, t + 1).input, Total(w, t + 1).output, Used(w, t + 1))
       else
         && tail == ChunkEvents(chunks[..n])
         && (if w.interrupted(t, n + 1) then last == Interrupted
             else chunks[n].ErrorChunk? && last == Error(StreamError(chunks[n].message)))
  }

  /** The whole account of a run: `done` turns went on, then it stopped, between turns or in one. */
  ghost predicate RunOk(cfg: Config, prompt: string, w: World, requests: seq<seq<Message>>, events: seq<Event>,
                        done: nat, tail: seq<Event>, last: Event)
  {
    && RequestsOk(cfg, prompt, w, requests) && AllGoOn(w, done)
    && done <= |requests| <= done + 1
    && (if |requests| == done then tail == [] && StopsBetweenTurns(cfg, w, done, last)
        else StopsInTurn(w, done, tail, last))
    && events == EventLog(w, done) + tail + [last]
  }

  /** The loop's state at the top of turn `t`. */
  ghost predicate AtTurn(cfg: Config, prompt: string, w: World, t: nat, messages: seq<Message>,
                         requests: seq<seq<Message>>, events: seq<Event>)
  {
    && messages == History(cfg, prompt, w, t) && events == EventLog(w, t)
    && |requests| == t && RequestsOk(cfg, prompt, w, requests) && AllGoOn(w, t)
  }

  lemma OneMoreRequest(cfg: Config, prompt: string, w: World, requests: seq<seq<Message>>, messages: seq<Message>)
    requires RequestsOk(cfg, prompt, w, requests) && messages == History(cfg, prompt, w, |requests|)
    requires |requests| < Bound(cfg) && WithinBudget(cfg, w, |requests|) && !w.interrupted(|requests|, 0)
    ensures RequestsOk(cfg, prompt, w, requests + [messages])
  {
    var all := requests + [messages];
    assert RequestOk(cfg, prompt, w, messages, |requests|);
    forall k | 0 <= k < |all| ensures RequestOk(cfg, prompt, w, all[k], k) {
      if k < |requests| {
        assert RequestOk(cfg, prompt, w, requests[k], k);
      }
    }
  }

  lemma EndsBetweenTurns(cfg: Config, prompt: string, w: World, t: nat, messages: seq<Message>,
                         requests: seq<seq<Message>>, events: seq<Event>, last: Event)
    requires AtTurn(cfg, prompt, w, t, messages, requests, events) && StopsBetweenTurns(cfg, w, t, last)
    ensures RunOk(cfg, prompt, w, requests, events + [last], t, [], last)
  {
    assert events + [] + [last] == events + [last];
  }

  lemma EndsInTurn(cfg: Config, prompt: string, w: World, t: nat, messages: seq<Message>,
                   requests: seq<seq<Message>>, events: seq<Event>, tail: seq<Event>, last: Event)
    requires AtTurn(cfg, prompt, w, t, messages, requests, events) && t < Bound(cfg)
    requires WithinBudget(cfg, w, t) && !w.interrupted(t, 0)
    requires StopsInTurn(w, t, tail, last)
    ensures RunOk(cfg, prompt, w, requests + [messages], events + tail + [last], t, tail, last)
  {
    OneMoreRequest(cfg, prompt, w, requests, messages);
  }

  lemma NextTurn(cfg: Config, prompt: string, w: World, t: nat, messages: seq<Message>,
                 requests: seq<seq<Message>>, events: seq<Event>)
    requires AtTurn(cfg, prompt, w, t, messages, requests, events) && t < Bound(cfg)
    requires WithinBudget(cfg, w, t) && !w.interrupted(t, 0)
    requires GoesOn(w, t)
    ensures AtTurn(cfg, prompt, w, t + 1, messages + Block(w, t), requests + [messages], events + TurnEvents(w, t))
  {
    OneMoreRequest(cfg, prompt, w, requests, messages);
  }

  method SendRequest(w: World, t: nat) returns (failure: Option<Failure>)
    ensures failure.None? <==> w.turn(t).Chunks?
    ensures failure.Some? ==> StopsInTurn(w, t, [], Error(failure.value))
  {
    match w.turn(t) {
      case BuildError => failure := Some(BuildFailed(t + 1));
      case RequestError => failure := Some(RequestFailed);
      case Status(code) => failure := Some(BadStatus(code));
      case ParseError => failure := Some(ParseFailed);
      case Chunks(_) => failure := None;
    }
  }

  /** One turn, from the request to the tool results: it ends the run with `stop`, or adds `block` to
      the conversation and `total` to the token count. */
  method RunTurn(w: World, t: nat, used: Usage)
    returns (stop: Option<Event>, block: seq<Message>, events: seq<Event>, total: Usage)
    requires used == Total(w, t)
    ensures stop.Some? ==> StopsInTurn(w, t, events, stop.value)
    ensures stop.None? ==>
              GoesOn(w, t) && block == Block(w, t) && events == TurnEvents(w, t) && total == Total(w, t + 1)
  {
    block, events, total := [], [], used;
    var failure := SendRequest(w, t);
    if failure.Some? {
      stop := Some(Error(failure.value));
      return;
    }
    var chunks := w.turn(t).chunks;
    var end, n, got, streamed := ReadStream(w, t, chunks);
    events := streamed;
    if end != Finished {
      stop := Some(if end == WasInterrupted then Interrupted else Error(StreamError(end.message)));
      assert StopsAtChunk(w, t, chunks, n, events, stop.value);
      return;
    }
    assert chunks[..n] == chunks;
    if got.usage.Some? {
      total := Usage(total.input + got.usage.value.input, total.output + got.usage.value.output);
    }
    block := [Assistant(got.text, got.calls)];
    if !got.hadToolUse {
      events := events + [AssistantSaid(got.text)];
      stop := Some(Complete(total.input, total.output, total.input + total.output));
      assert StopsAtChunk(w, t, chunks, n, events, stop.value);
      return;
    }
    var results, ran := RunTools(w, t, got.calls);
    block, events := block + results, events + ran;
    stop := None;
  }

  lemma AtStart(cfg: Config, prompt: string, w: World)
    ensures AtTurn(cfg, prompt, w, 0, [System(cfg.systemPrompt), User(prompt)], [], [Init])
  {
  }

  /** The checks at the top of a turn. */
  method CheckBefore(cfg: Config, w: World, t: nat, total: Usage) returns (stop: Option<Event>)
    requires total == Total(w, t) && t < Bound(cfg)
    ensures stop.Some? ==> StopsBetweenTurns(cfg, w, t, stop.value)
    ensures stop.None? ==> WithinBudget(cfg, w, t) && !w.interrupted(t, 0)
  {
    if cfg.tokenBudget > 0 && total.input + total.output >= cfg.tokenBudget {
      return Some(Error(BudgetExceeded(total.input + total.output, cfg.tokenBudget)));
    }
    if w.interrupted(t, 0) {
      return Some(Interrupted);
    }
    return None;
  }

  /** What the loop carries from turn to turn. */
  datatype Progress = Progress(messages: seq<Message>, requests: seq<seq<Message>>, events: seq<Event>, total: Usage)

  ghost predicate ProgressOk(cfg: Config, prompt: string, w: World, t: nat, p: Progress) {
    AtTurn(cfg, prompt, w, t, p.messages, p.requests, p.events) && p.total == Total(w, t)
  }

  /** The outcome of a run: its events, its requests, and how it ended. */
  datatype Outcome = Outcome(events: seq<Event>, requests: seq<seq<Message>>, done: nat, tail: seq<Event>, last: Event)

  ghost predicate OutcomeOk(cfg: Config, prompt: string, w: World, r: Outcome) {
    RunOk(cfg, prompt, w, r.requests, r.events, r.done, r.tail, r.last)
  }

  method RunOneTurn(cfg: Config, ghost prompt: string, w: World, t: nat, p: Progress)
    returns (ended: Option<Outcome>, next: Progress)
    requires ProgressOk(cfg, prompt, w, t, p) && t < Bound(cfg)
    ensures ended.Some? ==> OutcomeOk(cfg, prompt, w, ended.value)
    ensures ended.None? ==> ProgressOk(cfg, prompt, w, t + 1, next)
  {
    next := p;
    var early := CheckBefore(cfg, w, t, p.total);
    if early.Some? {
      EndsBetweenTurns(cfg, prompt, w, t, p.messages, p.requests, p.events, early.value);
      return Some(Outcome(p.events + [early.value], p.requests, t, [], early.value)), p;
    }
    var stop, block, more, total := RunTurn(w, t, p.total);
    if stop.Some? {
      EndsInTurn(cfg, prompt, w, t, p.messages, p.requests, p.events, more, stop.value);
      return Some(Outcome(p.events + more + [stop.value], p.requests + [p.messages], t, more, stop.value)), p;
    }
    NextTurn(cfg, prompt, w, t, p.messages, p.requests, p.events);
    return None, Progress(p.messages + block, p.requests + [p.messages], p.events + more, total);
  }

  /** The turns are used up. */
  method OutOfTurns(cfg: Config, ghost prompt: string, w: World, t: nat, p: Progress) returns (r: Outcome)
    requires ProgressOk(cfg, prompt, w, t, p) && t == Bound(cfg)
    ensures OutcomeOk(cfg, prompt, w, r)
  {
    var last := Error(TooManyTurns(cfg.maxTurns));
    EndsBetweenTurns(cfg, prompt, w, t, p.messages, p.requests, p.events, last);
    return Outcome(p.events + [last], p.requests, t, [], last);
  }

  lemma Started(cfg: Config, prompt: string, w: World)
    ensures ProgressOk(cfg, prompt, w, 0, Progress([System(cfg.systemPrompt), User(prompt)], [], [Init], Usage(0, 0)))
  {
    AtStart(cfg, prompt, w);
  }

  /** The loop keeps its whole account: every request, every event and the reason it stopped. */
  method ConversationLoop(cfg: Config, prompt: string, w: World) returns (r: Outcome)
    ensures OutcomeOk(cfg, prompt, w, r)
  {
    Started(cfg, prompt, w);
    var p := Progress([System(cfg.systemPrompt), User(prompt)], [], [Init], Usage(0, 0));
    for t := 0 to Bound(cfg)
      invariant ProgressOk(cfg, prompt, w, t, p)
    {
      var ended: Option<Outcome>;
      ended, p := RunOneTurn(cfg, prompt, w, t, p);
      if ended.Some? {
        return ended.value;
      }
    }
    r := OutOfTurns(cfg, prompt, w, Bound(cfg), p);
  }

  // ---------------------------------------------------------------- what every run guarantees

  predicate Middle(e: Event) {
    !Control(e)
  }

  lemma {:induction false} ChunkEventsAreMiddle(chunks: seq<Chunk>)
    ensures AllMiddle(ChunkEvents(chunks))
  {
    if chunks != [] {
      ChunkEventsAreMiddle(chunks[..|chunks| - 1]);
    }
  }

  /** Init first, one terminal event last, neither in between. */
  ghost predicate Grammar(events: seq<Event>) {
    && |events| >= 2 && events[0] == Init && Terminal(events[|events| - 1])
    && forall i :: 0 < i < |events| - 1 ==> Middle(events[i])
  }

  ghost predicate OpenLog(events: seq<Event>) {
    events != [] && events[0] == Init && AllMiddle(events[1..])
  }

  ghost predicate AllMiddle(events: seq<Event>) {
    forall e :: e in events ==> Middle(e)
  }

  lemma OpenLogAppend(a: seq<Event>, b: seq<Event>)
    requires OpenLog(a) && AllMiddle(b)
    ensures OpenLog(a + b)
  {
    assert (a + b)[1..] == a[1..] + b;
  }

  /** An open log with a terminal event at its end. */
  lemma ClosedLog(log: seq<Event>, last: Event)
    requires OpenLog(log) && Terminal(last)
    ensures Grammar(log + [last])
  {
    forall i | 0 < i < |log + [last]| - 1 ensures Middle((log + [last])[i]) {
      assert log[i] == log[1..][i - 1];
    }
  }

  lemma TurnEventsAreMiddle(w: World, t: nat)
    ensures AllMiddle(TurnEvents(w, t))
  {
    if w.turn(t).Chunks? {
      ChunkEventsAreMiddle(w.turn(t).chunks);
    }
  }

  lemma LogGrows(log: seq<Event>, more: seq<Event>, all: seq<Event>)
    requires all == log + more && OpenLog(log) && AllMiddle(more)
    ensures OpenLog(all)
  {
    OpenLogAppend(log, more);
  }

  lemma EventLogNext(w: World, t: nat)
    ensures EventLog(w, t + 1) == EventLog(w, t) + TurnEvents(w, t)
  {
  }

  lemma {:induction false} EventLogIsOpen(w: World, t: nat)
    ensures OpenLog(EventLog(w, t))
  {
    if t == 0 {
      assert EventLog(w, 0) == [Init];
    } else {
      var last := t - 1;
      EventLogIsOpen(w, last);
      TurnEventsAreMiddle(w, last);
      EventLogNext(w, last);
      LogGrows(EventLog(w, last), TurnEvents(w, last), EventLog(w, t));
    }
  }

  lemma TailIsMiddle(w: World, t: nat, tail: seq<Event>, last: Event)
    requires StopsInTurn(w, t, tail, last)
    ensures AllMiddle(tail) && Terminal(last)
  {
    if w.turn(t).Chunks? {
      var chunks := w.turn(t).chunks;
      var n: nat :| n <= |chunks| && StopsAtChunk(w, t, chunks, n, tail, last);
      ChunkEventsAreMiddle(chunks);
      ChunkEventsAreMiddle(chunks[..n]);
    }
  }

  /** Every run starts with Init and ends with exactly one terminal event. */
  lemma RunFollowsGrammar(cfg: Config, prompt: string, w: World, r: Outcome)
    requires OutcomeOk(cfg, prompt, w, r)
    ensures Grammar(r.events) && r.events[|r.events| - 1] == r.last
  {
    EventLogIsOpen(w, r.done);
    if |r.requests| != r.done {
      TailIsMiddle(w, r.done, r.tail, r.last);
    }
    OpenLogAppend(EventLog(w, r.done), r.tail);
    ClosedLog(EventLog(w, r.done) + r.tail, r.last);
  }

  /** What the receiver sees: control events always, the others if there was room. */
  function Delivered(events: seq<Event>, room: nat -> bool): seq<Event> {
    if events == [] then []
    else
      var n := |events| - 1;
      Delivered(events[..n], room) + if Control(events[n]) || room(n) then [events[n]] else []
  }

  lemma OpenLogPrefix(events: seq<Event>)
    requires OpenLog(events) && |events| > 1
    ensures OpenLog(events[..|events| - 1]) && Middle(events[|events| - 1])
  {
    var n := |events| - 1;
    assert events[..n][1..] == events[1..][..n - 1];
    assert events[1..][n - 1] == events[n];
  }

  lemma {:induction false} DeliveredIsOpen(events: seq<Event>, room: nat -> bool)
    requires OpenLog(events)
    ensures OpenLog(Delivered(events, room))
  {
    var n := |events| - 1;
    if n == 0 {
      assert events[..0] == [];
    } else {
      OpenLogPrefix(events);
      DeliveredIsOpen(events[..n], room);
      if room(n) {
        OpenLogAppend(Delivered(events[..n], room), [events[n]]);
      }
    }
  }

  /** Dropping optional events cannot hide the start or the end of a run, nor duplicate them. */
  lemma DeliveryKeepsGrammar(events: seq<Event>, room: nat -> bool)
    requires Grammar(events)
    ensures Grammar(Delivered(events, room))
    ensures Delivered(events, room)[|Delivered(events, room)| - 1] == events[|events| - 1]
  {
    DeliveredIsOpen(events[..|events| - 1], room);
  }

  /** Blocks of one assistant message followed by exactly the answers to its calls, in their order. */
  ghost predicate Blocks(ms: seq<Message>) {
    ms == [] || (
      && ms[0].Assistant?
      && |ms| > |ms[0].calls|
      && (forall i :: 0 <= i < |ms[0].calls| ==> Answered(ms, i))
      && Blocks(ms[|ms[0].calls| + 1..]))
  }

  ghost predicate Answered(ms: seq<Message>, i: nat)
    requires ms != [] && ms[0].Assistant? && |ms| > |ms[0].calls| && i < |ms[0].calls|
  {
    ms[i + 1].ToolResult? && ms[i + 1].callId == ms[0].calls[i].id
  }

  lemma {:induction false} BlocksAppend(a: seq<Message>, b: seq<Message>)
    requires Blocks(a) && Blocks(b)
    ensures Blocks(a + b)
  {
    if a == [] {
      assert a + b == b;
    } else {
      var n := |a[0].calls| + 1;
      BlocksAppend(a[n..], b);
      assert (a + b)[n..] == a[n..] + b;
      forall i | 0 <= i < |(a + b)[0].calls| ensures Answered(a + b, i) {
        assert Answered(a, i);
      }
    }
  }

  ghost predicate Transcript(cfg: Config, prompt: string, h: seq<Message>) {
    |h| >= 2 && h[0] == System(cfg.systemPrompt) && h[1] == User(prompt) && Blocks(h[2..])
  }

  lemma BlockIsBlock(w: World, t: nat)
    requires w.turn(t).Chunks?
    ensures Blocks(Block(w, t))
  {
    var block := Block(w, t);
    assert block[|block[0].calls| + 1..] == [];
  }

  lemma TranscriptGrows(cfg: Config, prompt: string, h: seq<Message>, block: seq<Message>)
    requires Transcript(cfg, prompt, h) && Blocks(h[2..] + block)
    ensures Transcript(cfg, prompt, h + block)
  {
    assert (h + block)[2..] == h[2..] + block;
  }

  lemma TranscriptNext(cfg: Config, prompt: string, before: seq<Message>, block: seq<Message>, after: seq<Message>)
    requires after == before + block && Blocks(block) && Transcript(cfg, prompt, before)
    ensures Transcript(cfg, prompt, after)
  {
    BlocksAppend(before[2..], block);
    TranscriptGrows(cfg, prompt, before, block);
  }

  lemma TranscriptStarts(cfg: Config, prompt: string, h: seq<Message>)
    requires h == [System(cfg.systemPrompt), User(prompt)]
    ensures Transcript(cfg, prompt, h)
  {
    assert h[2..] == [];
  }

  lemma HistoryNext(cfg: Config, prompt: string, w: World, t: nat)
    ensures History(cfg, prompt, w, 0) == [System(cfg.systemPrompt), User(prompt)]
    ensures History(cfg, prompt, w, t + 1) == History(cfg, prompt, w, t) + Block(w, t)
  {
  }

  /** The first `t` turns got a stream. */
  predicate Streamed(w: World, t: nat) {
    t == 0 || (Streamed(w, t - 1) && w.turn(t - 1).Chunks?)
  }

  lemma {:induction false} AllGoOnStreamed(w: World, t: nat)
    requires AllGoOn(w, t)
    ensures Streamed(w, t)
  {
    if t > 0 {
      AllGoOnStreamed(w, t - 1);
      assert GoesOn(w, t - 1);
    }
  }

  ghost predicate IsTranscriptAt(cfg: Config, prompt: string, w: World, t: nat) {
    Transcript(cfg, prompt, History(cfg, prompt, w, t))
  }

  lemma TranscriptAtNext(cfg: Config, prompt: string, w: World, t: nat, next: nat)
    requires next == t + 1 && IsTranscriptAt(cfg, prompt, w, t) && w.turn(t).Chunks?
    ensures IsTranscriptAt(cfg, prompt, w, next)
  {
    BlockIsBlock(w, t);
    HistoryNext(cfg, prompt, w, t);
    TranscriptNext(cfg, prompt, History(cfg, prompt, w, t), Block(w, t), History(cfg, prompt, w, next));
  }

  lemma TranscriptAtStart(cfg: Config, prompt: string, w: World)
    ensures IsTranscriptAt(cfg, prompt, w, 0)
  {
    HistoryNext(cfg, prompt, w, 0);
    TranscriptStarts(cfg, prompt, History(cfg, prompt, w, 0));
  }

  lemma {:induction false} StreamedIsTranscript(cfg: Config, prompt: string, w: World, t: nat)
    requires Streamed(w, t)
    ensures IsTranscriptAt(cfg, prompt, w, t)
  {
    if t == 0 {
      TranscriptAtStart(cfg, prompt, w);
    } else {
      var last := t - 1;
      StreamedIsTranscript(cfg, prompt, w, last);
      TranscriptAtNext(cfg, prompt, w, last, t);
    }
  }

  lemma HistoryIsTranscript(cfg: Config, prompt: string, w: World, t: nat)
    requires AllGoOn(w, t)
    ensures Transcript(cfg, prompt, History(cfg, prompt, w, t))
  {
    AllGoOnStreamed(w, t);
    StreamedIsTranscript(cfg, prompt, w, t);
  }

  /** Every request of every run is a well-formed conversation, there are at most MaxTurns of them, and
      none is made once the tokens used reach a positive budget. */
  lemma EveryRequestIsTranscript(cfg: Config, prompt: string, w: World, r: Outcome, k: nat)
    requires OutcomeOk(cfg, prompt, w, r) && k < |r.requests|
    ensures Transcript(cfg, prompt, r.requests[k])
    ensures cfg.tokenBudget > 0 ==> Used(w, k) < cfg.tokenBudget
    ensures |r.requests| <= Bound(cfg)
  {
    assert RequestOk(cfg, prompt, w, r.requests[k], k);
    HistoryIsTranscript(cfg, prompt, w, k);
  }

  // ---------------------------------------------------------------- the account leaves nothing open

  lemma StopChunkDoesNotPass(w: World, t: nat, chunks: seq<Chunk>, n: nat, tail: seq<Event>, last: Event)
    requires n < |chunks| && StopsAtChunk(w, t, chunks, n, tail, last)
    ensures !Passes(w, t, chunks, n)
  {
  }

  lemma StoppedTurnDoesNotGoOn(w: World, t: nat, tail: seq<Event>, last: Event)
    requires StopsInTurn(w, t, tail, last)
    ensures !GoesOn(w, t)
  {
    if w.turn(t).Chunks? {
      var chunks := w.turn(t).chunks;
      var n: nat :| n <= |chunks| && StopsAtChunk(w, t, chunks, n, tail, last);
      if n < |chunks| {
        StopChunkDoesNotPass(w, t, chunks, n, tail, last);
      }
    }
  }

  lemma SameChunk(w: World, t: nat, chunks: seq<Chunk>, tail: seq<Event>, last: Event, tail': seq<Event>, last': Event)
    requires w.turn(t) == Chunks(chunks)
    requires StopsInTurn(w, t, tail, last) && StopsInTurn(w, t, tail', last')
    ensures tail == tail' && last == last'
  {
    var n: nat :| n <= |chunks| && StopsAtChunk(w, t, chunks, n, tail, last);
    var n': nat :| n' <= |chunks| && StopsAtChunk(w, t, chunks, n', tail', last');
    if n < |chunks| {
      StopChunkDoesNotPass(w, t, chunks, n, tail, last);
    }
    if n' < |chunks| {
      StopChunkDoesNotPass(w, t, chunks, n', tail', last');
    }
    assert n == n';
  }

  lemma NoEarlierStop(cfg: Config, prompt: string, w: World, r: Outcome, r': Outcome)
    requires OutcomeOk(cfg, prompt, w, r) && OutcomeOk(cfg, prompt, w, r')
    ensures r.done >= r'.done
  {
    if r.done < r'.done {
      assert RequestOk(cfg, prompt, w, r'.requests[r.done], r.done);
      assert GoesOn(w, r.done);
      if |r.requests| != r.done {
        StoppedTurnDoesNotGoOn(w, r.done, r.tail, r.last);
      }
    }
  }

  lemma SameStop(cfg: Config, prompt: string, w: World, r: Outcome, r': Outcome)
    requires OutcomeOk(cfg, prompt, w, r) && OutcomeOk(cfg, prompt, w, r') && r.done == r'.done
    ensures |r.requests| == |r'.requests| && r.tail == r'.tail && r.last == r'.last
  {
    if |r.requests| == r.done + 1 {
      assert RequestOk(cfg, prompt, w, r.requests[r.done], r.done);
    }
    if |r'.requests| == r.done + 1 {
      assert RequestOk(cfg, prompt, w, r'.requests[r.done], r.done);
    }
    if |r.requests| == r.done + 1 && w.turn(r.done).Chunks? {
      SameChunk(w, r.done, w.turn(r.done).chunks, r.tail, r.last, r'.tail, r'.last);
    }
  }

  /** For a given configuration, prompt and world there is one run: one sequence of requests, one of
      events and one way to stop. */
  lemma RunIsDetermined(cfg: Config, prompt: string, w: World, r: Outcome, r': Outcome)
    requires OutcomeOk(cfg, prompt, w, r) && OutcomeOk(cfg, prompt, w, r')
    ensures r == r'
  {
    NoEarlierStop(cfg, prompt, w, r, r');
    NoEarlierStop(cfg, prompt, w, r', r);
    SameStop(cfg, prompt, w, r, r');
    forall k | 0 <= k < |r.requests| ensures r.requests[k] == r'.requests[k] {
      assert RequestOk(cfg, prompt, w, r.requests[k], k) && RequestOk(cfg, prompt, w, r'.requests[k], k);
    }
  }
}
