/** The content-block state machine of Anthropic message streams (agent/anthropic/anthropic.go).

    JSON decoding is a parameter: how the data of each kind of event decodes, and which argument object
    an argument text stands for (the empty object when it is empty or does not decode). */
module AnthropicStream {
  import opened Common
  import opened Provider

  datatype Event =
    | BlockStart(index: int, kind: string, id: string, name: string)
    | TextDelta(index: int, text: string)
    | JsonDelta(index: int, partial: string)
    | BlockStop(index: int)
    | MessageStop
    | Failure(message: string)
    | InputTokens(count: int)
    | OutputTokens(count: int)
    | Ignored

  datatype Json = Json(start: string -> Option<Event>, delta: string -> Option<Event>, stop: string -> Option<int>,
                       failure: string -> Option<string>, input: string -> Option<int>, output: string -> Option<int>,
                       arguments: string -> string)

  datatype Block = Block(kind: string, id: string, name: string, inputJson: string)

  /** What one server-sent event says; what does not decode is skipped, except that an undecodable error
      is reported by its raw data. A `delta` that is neither text nor JSON decodes to `Ignored`. */
  function Decode(json: Json, name: string, data: string): Event {
    match name
    case "content_block_start" =>
      (match json.start(data) case Some(BlockStart(i, k, id, n)) => BlockStart(i, k, id, n) case _ => Ignored)
    case "content_block_delta" =>
      (match json.delta(data)
       case Some(TextDelta(i, t)) => TextDelta(i, t)
       case Some(JsonDelta(i, p)) => JsonDelta(i, p)
       case _ => Ignored)
    case "content_block_stop" => (match json.stop(data) case Some(i) => BlockStop(i) case None => Ignored)
    case "message_stop" => MessageStop
    case "error" => Failure(match json.failure(data) case Some(m) => m case None => data)
    case "message_start" => (match json.input(data) case Some(n) => InputTokens(n) case None => Ignored)
    case "message_delta" => (match json.output(data) case Some(n) => OutputTokens(n) case None => Ignored)
    case _ => Ignored
  }

  predicate Terminal(e: Event) {
    e.MessageStop? || e.Failure?
  }

  // ---------------------------------------------------------------- what a stream says, event by event

  predicate Boundary(e: Event, index: int) {
    (e.BlockStart? || e.BlockStop?) && e.index == index
  }

  /** Block `index` is open at the end of `es`, started by event `j`. */
  ghost predicate Opens(es: seq<Event>, index: int, j: nat) {
    && j < |es| && es[j].BlockStart? && es[j].index == index
    && forall k :: j < k < |es| ==> !Boundary(es[k], index)
  }

  ghost predicate IsOpen(es: seq<Event>, index: int) {
    exists j: nat :: Opens(es, index, j)
  }

  lemma OpensOnce(es: seq<Event>, index: int, j: nat, k: nat)
    requires Opens(es, index, j) && Opens(es, index, k)
    ensures j == k
  {
    assert Boundary(es[j], index) && Boundary(es[k], index);
  }

  /** The JSON fragments of one block, joined in the order they arrived. */
  function Joined(es: seq<Event>, index: int): string {
    if es == [] then ""
    else
      var last := es[|es| - 1];
      Joined(es[..|es| - 1], index) + if last.JsonDelta? && last.index == index then last.partial else ""
  }

  /** The block that event `j` opened, with the fragments that arrived since. */
  function BlockFrom(es: seq<Event>, j: nat): Block
    requires j < |es| && es[j].BlockStart?
  {
    Block(es[j].kind, es[j].id, es[j].name, Joined(es[j + 1..], es[j].index))
  }

  ghost function OpenBlock(es: seq<Event>, index: int): Option<Block> {
    if IsOpen(es, index) then
      var j: nat :| Opens(es, index, j);
      Some(BlockFrom(es, j))
    else None
  }

  lemma OpenBlockIs(es: seq<Event>, index: int, j: nat)
    requires Opens(es, index, j)
    ensures OpenBlock(es, index) == Some(BlockFrom(es, j))
  {
    var k: nat :| Opens(es, index, k) && OpenBlock(es, index) == Some(BlockFrom(es, k));
    OpensOnce(es, index, j, k);
  }

  /** What event `e` makes the parser emit after `es`: the text of an open block, and the call of a
      tool-use block when it stops. */
  ghost function Emitted(json: Json, es: seq<Event>, e: Event): seq<Chunk> {
    match e
    case TextDelta(i, t) => if IsOpen(es, i) then [TextChunk(t)] else []
    case BlockStop(i) =>
      (match OpenBlock(es, i)
       case Some(b) => if b.kind == "tool_use" then [ToolChunk(json, b)] else []
       case None => [])
    case _ => []
  }

  function ToolChunk(json: Json, b: Block): Chunk {
    ToolUseChunk(Some(ToolCall(b.id, b.name, json.arguments(b.inputJson))))
  }

  ghost function Body(json: Json, es: seq<Event>): seq<Chunk> {
    if es == [] then [] else Body(json, es[..|es| - 1]) + Emitted(json, es[..|es| - 1], es[|es| - 1])
  }

  function Total(es: seq<Event>): Usage {
    if es == [] then Usage(0, 0)
    else
      var u := Total(es[..|es| - 1]);
      match es[|es| - 1]
      case InputTokens(n) => u.(input := u.input + n)
      case OutputTokens(n) => u.(output := u.output + n)
      case _ => u
  }

  /** The last chunk: Done when the message stops or the stream just ends, Error on an error event. A
      stream that just ends reports no usage. */
  function Final(before: seq<Event>, last: Option<Event>): Chunk {
    match last
    case Some(Failure(m)) => ErrorChunk(m)
    case Some(_) => var u := Total(before); DoneChunk(if u.input > 0 || u.output > 0 then Some(u) else None)
    case None => DoneChunk(None)
  }

  /** The events before the first terminal one; that one ends the stream, whatever follows. */
  function Live(es: seq<Event>): seq<Event> {
    if es == [] || Terminal(es[0]) then [] else [es[0]] + Live(es[1..])
  }

  function Ending(es: seq<Event>): Option<Event> {
    if es == [] then None else if Terminal(es[0]) then Some(es[0]) else Ending(es[1..])
  }

  ghost function Output(json: Json, es: seq<Event>): seq<Chunk> {
    Body(json, Live(es)) + [Final(Live(es), Ending(es))]
  }

  // ---------------------------------------------------------------- the state machine

  datatype State = State(blocks: map<int, Block>, usage: Usage, chunks: seq<Chunk>)

  function Step(json: Json, s: State, e: Event): State {
    match e
    case BlockStart(i, k, id, n) => s.(blocks := s.blocks[i := Block(k, id, n, "")])
    case TextDelta(i, t) => if i in s.blocks then s.(chunks := s.chunks + [TextChunk(t)]) else s
    case JsonDelta(i, p) =>
      if i in s.blocks then
        s.(blocks := s.blocks[i := s.blocks[i].(inputJson := s.blocks[i].inputJson + p)])
      else s
    case BlockStop(i) =>
      if i in s.blocks then
        var call := if s.blocks[i].kind == "tool_use" then [ToolChunk(json, s.blocks[i])] else [];
        s.(chunks := s.chunks + call, blocks := s.blocks - {i})
      else s
    case InputTokens(n) => s.(usage := s.usage.(input := s.usage.input + n))
    case OutputTokens(n) => s.(usage := s.usage.(output := s.usage.output + n))
    case _ => s
  }

  function Run(json: Json, s: State, es: seq<Event>): State {
    if es == [] then s else Step(json, Run(json, s, es[..|es| - 1]), es[|es| - 1])
  }

  function Init(): State {
    State(map[], Usage(0, 0), [])
  }

  lemma OpensBefore(es: seq<Event>, e: Event, i: int, j: nat)
    requires !Boundary(e, i)
    ensures Opens(es + [e], i, j) <==> Opens(es, i, j)
  {
    var all := es + [e];
    assert all[|es|] == e;
    assert forall k :: 0 <= k < |es| ==> es[k] == all[k];
  }

  /** How the open block of an index changes with one more event. */
  lemma OpenBlockSnoc(es: seq<Event>, e: Event, i: int)
    ensures OpenBlock(es + [e], i) ==
      if e.BlockStart? && e.index == i then Some(Block(e.kind, e.id, e.name, ""))
      else if e.BlockStop? && e.index == i then None
      else if e.JsonDelta? && e.index == i && OpenBlock(es, i).Some? then
        Some(OpenBlock(es, i).value.(inputJson := OpenBlock(es, i).value.inputJson + e.partial))
      else OpenBlock(es, i)
  {
    var all := es + [e];
    if Boundary(e, i) {
      BoundarySnoc(es, e, i);
    } else if IsOpen(es, i) {
      var j: nat :| Opens(es, i, j);
      OpenBlockIs(es, i, j);
      OpensBefore(es, e, i, j);
      OpenBlockIs(all, i, j);
      assert all[j + 1..] == es[j + 1..] + [e];
      assert (es[j + 1..] + [e])[..|es[j + 1..]|] == es[j + 1..];
      assert Joined(es[j + 1..], i) + "" == Joined(es[j + 1..], i);
    } else {
      forall j: nat ensures !Opens(all, i, j) {
        OpensBefore(es, e, i, j);
      }
    }
  }

  lemma BoundarySnoc(es: seq<Event>, e: Event, i: int)
    requires Boundary(e, i)
    ensures OpenBlock(es + [e], i) == if e.BlockStart? then Some(Block(e.kind, e.id, e.name, "")) else None
  {
    var all := es + [e];
    if e.BlockStart? {
      assert Opens(all, i, |es|);
      OpenBlockIs(all, i, |es|);
      assert all[|es| + 1..] == [];
    } else {
      forall j: nat ensures !Opens(all, i, j) {
        assert all[|es|] == e;
      }
    }
  }

  ghost predicate BlocksAgree(es: seq<Event>, blocks: map<int, Block>) {
    forall i :: BlockAgrees(es, blocks, i)
  }

  ghost predicate BlockAgrees(es: seq<Event>, blocks: map<int, Block>, i: int) {
    OpenBlock(es, i) == if i in blocks then Some(blocks[i]) else None
  }

  lemma BlocksAgreeSnoc(json: Json, es: seq<Event>, s: State, e: Event)
    requires BlocksAgree(es, s.blocks)
    ensures BlocksAgree(es + [e], Step(json, s, e).blocks)
  {
    forall i ensures BlockAgrees(es + [e], Step(json, s, e).blocks, i) {
      assert BlockAgrees(es, s.blocks, i);
      OpenBlockSnoc(es, e, i);
    }
  }

  /** After any events the block map holds exactly the open blocks, each with the identity its own start
      gave it and its own fragments since then; the chunks and the usage are what the events say. */
  ghost predicate Upto(json: Json, es: seq<Event>, s: State) {
    BlocksAgree(es, s.blocks) && s.chunks == Body(json, es) && s.usage == Total(es)
  }

  lemma UptoStart(json: Json)
    ensures Upto(json, [], Init())
  {
    forall i ensures BlockAgrees([], map[], i) {
      assert !IsOpen([], i);
    }
  }

  lemma UptoSnoc(json: Json, es: seq<Event>, s: State, e: Event)
    requires Upto(json, es, s)
    ensures Upto(json, es + [e], Step(json, s, e))
  {
    BlocksAgreeSnoc(json, es, s, e);
    assert (es + [e])[..|es|] == es;
    if e.TextDelta? || e.BlockStop? {
      assert BlockAgrees(es, s.blocks, e.index);
    }
  }

  lemma {:induction false} RunSaysWhatTheEventsSay(json: Json, es: seq<Event>)
    ensures Upto(json, es, Run(json, Init(), es))
  {
    if es == [] {
      UptoStart(json);
    } else {
      RunSaysWhatTheEventsSay(json, es[..|es| - 1]);
      UptoSnoc(json, es[..|es| - 1], Run(json, Init(), es[..|es| - 1]), es[|es| - 1]);
      assert es[..|es| - 1] + [es[|es| - 1]] == es;
    }
  }

  // ---------------------------------------------------------------- the parser

  /** One event that is not terminal. */
  method TakeEvent(json: Json, e: Event, s: State) returns (s': State)
    requires !Terminal(e)
    ensures s' == Step(json, s, e)
  {
    var blocks, usage, chunks := s.blocks, s.usage, s.chunks;
    match e {
      case BlockStart(i, k, id, n) =>
        blocks := blocks[i := Block(k, id, n, "")];
      case TextDelta(i, t) =>
        if i in blocks {
          chunks := chunks + [TextChunk(t)];
        }
      case JsonDelta(i, p) =>
        if i in blocks {
          blocks := blocks[i := blocks[i].(inputJson := blocks[i].inputJson + p)];
        }
      case BlockStop(i) =>
        if i in blocks {
          if blocks[i].kind == "tool_use" {
            chunks := chunks + [ToolChunk(json, blocks[i])];
          }
          blocks := blocks - {i};
        }
      case InputTokens(n) =>
        usage := usage.(input := usage.input + n);
      case OutputTokens(n) =>
        usage := usage.(output := usage.output + n);
      case _ =>
    }
    s' := State(blocks, usage, chunks);
  }

  /** None of the first `i` events is terminal. */
  ghost predicate At(es: seq<Event>, i: nat)
    requires i <= |es|
  {
    Live(es) == es[..i] + Live(es[i..]) && Ending(es) == Ending(es[i..])
  }

  lemma ConsInside<T>(a: seq<T>, x: T, b: seq<T>)
    ensures a + ([x] + b) == (a + [x]) + b
  {
  }

  lemma AtNext(es: seq<Event>, i: nat)
    requires i < |es| && At(es, i)
    ensures if Terminal(es[i]) then Live(es) == es[..i] && Ending(es) == Some(es[i]) else At(es, i + 1)
  {
    Border(es, i);
    if Terminal(es[i]) {
      assert Live(es[i..]) == [];
      assert es[..i] + [] == es[..i];
    } else {
      assert Live(es[i..]) == [es[i]] + Live(es[i + 1..]);
      ConsInside(es[..i], es[i], Live(es[i + 1..]));
    }
  }

  /** What the loop has built after `i` events, none of them terminal. */
  ghost predicate Progress(json: Json, es: seq<Event>, i: nat, s: State)
    requires i <= |es|
  {
    Upto(json, es[..i], s) && At(es, i)
  }

  lemma ProgressStart(json: Json, es: seq<Event>)
    ensures Progress(json, es, 0, Init())
  {
    UptoStart(json);
    assert es[0..] == es && es[..0] == [];
    assert [] + Live(es) == Live(es);
  }

  lemma ProgressNext(json: Json, es: seq<Event>, i: nat, s: State)
    requires i < |es| && Progress(json, es, i, s)
    ensures if Terminal(es[i]) then Output(json, es) == s.chunks + [Last(es[i], s.usage)]
            else Progress(json, es, i + 1, Step(json, s, es[i]))
  {
    AtNext(es, i);
    Border(es, i);
    UptoSnoc(json, es[..i], s, es[i]);
  }

  lemma ProgressEnd(json: Json, es: seq<Event>, s: State)
    requires Progress(json, es, |es|, s)
    ensures Output(json, es) == s.chunks + [DoneChunk(None)]
  {
    assert es[..|es|] == es && es[|es|..] == [];
    assert es + [] == es;
  }

  method ParseStream(json: Json, sse: seq<(string, string)>) returns (chunks: seq<Chunk>)
    ensures chunks == Output(json, Decoded(json, sse))
  {
    var s := Init();
    ghost var es := Decoded(json, sse);
    ProgressStart(json, es);
    for i := 0 to |sse|
      invariant Progress(json, es, i, s)
    {
      var e := Decode(json, sse[i].0, sse[i].1);
      ProgressNext(json, es, i, s);
      if Terminal(e) {
        chunks := s.chunks + [Last(e, s.usage)];
        return;
      }
      s := TakeEvent(json, e, s);
    }
    ProgressEnd(json, es, s);
    chunks := s.chunks + [DoneChunk(None)];
  }

  /** The chunk for `message_stop` and for an error event. */
  function Last(e: Event, usage: Usage): Chunk
    requires Terminal(e)
  {
    if e.Failure? then ErrorChunk(e.message)
    else DoneChunk(if usage.input > 0 || usage.output > 0 then Some(usage) else None)
  }

  function Decoded(json: Json, sse: seq<(string, string)>): seq<Event> {
    seq(|sse|, i requires 0 <= i < |sse| => Decode(json, sse[i].0, sse[i].1))
  }

  // ---------------------------------------------------------------- the shape of every output

  lemma {:induction false} BodyShape(json: Json, es: seq<Event>, k: nat)
    requires k < |Body(json, es)|
    ensures Body(json, es)[k].TextChunk? || Body(json, es)[k].ToolUseChunk?
  {
    var init := es[..|es| - 1];
    if k < |Body(json, init)| {
      BodyShape(json, init, k);
    } else {
      assert Body(json, es)[k] == Emitted(json, init, es[|es| - 1])[k - |Body(json, init)|];
    }
  }

  predicate Ends(c: Chunk) {
    c.DoneChunk? || c.ErrorChunk?
  }

  /** Every stream gives exactly one Done or Error, as the last chunk. */
  lemma ExactlyOneFinalChunk(json: Json, es: seq<Event>, k: nat)
    requires k < |Output(json, es)|
    ensures Ends(Output(json, es)[k]) <==> k == |Output(json, es)| - 1
  {
    if k < |Body(json, Live(es))| {
      BodyShape(json, Live(es), k);
    }
  }

  // ---------------------------------------------------------------- what does not matter

  lemma {:induction false} RunAppend(json: Json, s: State, a: seq<Event>, b: seq<Event>)
    ensures Run(json, s, a + b) == Run(json, Run(json, s, a), b)
  {
    if b == [] {
      assert a + b == a;
    } else {
      assert (a + b)[..|a + b| - 1] == a + b[..|b| - 1];
      RunAppend(json, s, a, b[..|b| - 1]);
    }
  }

  lemma RunOne(json: Json, s: State, e: Event)
    ensures Run(json, s, [e]) == Step(json, s, e)
  {
    assert [e][..0] == [];
  }

  lemma {:induction false} LiveAppend(a: seq<Event>, b: seq<Event>)
    ensures Ending(a).None? ==> Live(a) == a && Live(a + b) == a + Live(b) && Ending(a + b) == Ending(b)
    ensures Ending(a).Some? ==> Live(a + b) == Live(a) && Ending(a + b) == Ending(a)
  {
    if a == [] {
      assert a + b == b;
    } else if !Terminal(a[0]) {
      assert (a + b)[1..] == a[1..] + b;
      LiveAppend(a[1..], b);
      assert [a[0]] + (a[1..] + Live(b)) == a + Live(b);
    }
  }

  /** Two middles without terminal events that act alike on every state are interchangeable. */
  lemma Interchangeable(json: Json, before: seq<Event>, x: seq<Event>, y: seq<Event>, after: seq<Event>)
    requires Ending(x).None? && Ending(y).None?
    requires forall s :: Run(json, s, x) == Run(json, s, y)
    ensures Output(json, before + x + after) == Output(json, before + y + after)
  {
    LiveAppend(before + x, after);
    LiveAppend(before, x);
    LiveAppend(before + y, after);
    LiveAppend(before, y);
    if Ending(before).None? {
      SameRunSameOutput(json, before, x, y, Live(after));
    }
  }

  lemma SameRunSameOutput(json: Json, before: seq<Event>, x: seq<Event>, y: seq<Event>, rest: seq<Event>)
    requires forall s :: Run(json, s, x) == Run(json, s, y)
    ensures Body(json, before + x + rest) == Body(json, before + y + rest)
    ensures Total(before + x + rest) == Total(before + y + rest)
  {
    var s := Run(json, Init(), before);
    RunAppend(json, Init(), before, x);
    RunAppend(json, Init(), before + x, rest);
    RunAppend(json, Init(), before, y);
    RunAppend(json, Init(), before + y, rest);
    assert Run(json, s, x) == Run(json, s, y);
    RunSaysWhatTheEventsSay(json, before + x + rest);
    RunSaysWhatTheEventsSay(json, before + y + rest);
  }

  /** Splitting a JSON fragment in two changes nothing. */
  lemma SplittingDoesNotMatter(json: Json, before: seq<Event>, i: int, p: string, q: string, after: seq<Event>)
    ensures Output(json, before + [JsonDelta(i, p + q)] + after)
         == Output(json, before + [JsonDelta(i, p), JsonDelta(i, q)] + after)
  {
    var whole, parts := [JsonDelta(i, p + q)], [JsonDelta(i, p), JsonDelta(i, q)];
    forall s ensures Run(json, s, whole) == Run(json, s, parts) {
      RunOne(json, s, JsonDelta(i, p + q));
      RunTwo(json, s, JsonDelta(i, p), JsonDelta(i, q));
      SplitStep(json, s, i, p, q);
    }
    NoEnding(JsonDelta(i, p), JsonDelta(i, q));
    Interchangeable(json, before, whole, parts, after);
  }

  lemma RunTwo(json: Json, s: State, d: Event, e: Event)
    ensures Run(json, s, [d, e]) == Step(json, Step(json, s, d), e)
  {
    assert [d, e][..1] == [d];
    RunOne(json, s, d);
  }

  lemma NoEnding(d: Event, e: Event)
    requires !Terminal(d) && !Terminal(e)
    ensures Ending([d, e]).None?
  {
    assert [d, e][1..] == [e] && [e][1..] == [];
    assert Ending([e]) == Ending([e][1..]);
  }

  lemma SplitStep(json: Json, s: State, i: int, p: string, q: string)
    ensures Step(json, s, JsonDelta(i, p + q)) == Step(json, Step(json, s, JsonDelta(i, p)), JsonDelta(i, q))
  {
    if i in s.blocks {
      assert s.blocks[i].inputJson + (p + q) == s.blocks[i].inputJson + p + q;
    }
  }

  predicate Mentions(e: Event, i: int) {
    (e.BlockStart? || e.TextDelta? || e.JsonDelta? || e.BlockStop?) && e.index == i
  }

  /** A JSON fragment may move past any event of another block, and past usage and ignored events. */
  lemma InterleavingDoesNotMatter(json: Json, before: seq<Event>, i: int, p: string, e: Event, after: seq<Event>)
    requires !Terminal(e) && !Mentions(e, i)
    ensures Output(json, before + [JsonDelta(i, p), e] + after) == Output(json, before + [e, JsonDelta(i, p)] + after)
  {
    var x, y := [JsonDelta(i, p), e], [e, JsonDelta(i, p)];
    forall s ensures Run(json, s, x) == Run(json, s, y) {
      RunTwo(json, s, JsonDelta(i, p), e);
      RunTwo(json, s, e, JsonDelta(i, p));
      SwapStep(json, s, i, p, e);
    }
    NoEnding(JsonDelta(i, p), e);
    NoEnding(e, JsonDelta(i, p));
    Interchangeable(json, before, x, y, after);
  }

  lemma SwapStep(json: Json, s: State, i: int, p: string, e: Event)
    requires !Mentions(e, i)
    ensures Step(json, Step(json, s, JsonDelta(i, p)), e) == Step(json, Step(json, s, e), JsonDelta(i, p))
  {
    var a, b := Step(json, Step(json, s, JsonDelta(i, p)), e), Step(json, Step(json, s, e), JsonDelta(i, p));
    assert a.blocks == b.blocks;
  }
}
