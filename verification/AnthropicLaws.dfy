/** What the parser of Anthropic streams makes of server-sent events, said of their names and data: which event
    means what, which chunk comes from which events, and which chunk ends the output. */
module AnthropicLaws {
  import opened Common
  import opened Provider
  import opened AnthropicStream

  type Sse = (string, string)

  /** An event means something to the parser exactly when it has the right name and its data decodes; an error
      event means a failure in any case. */
  lemma EachNameMeansItsOwn(json: Json, name: string, data: string)
    ensures forall i, kind, id, tool :: Decode(json, name, data) == BlockStart(i, kind, id, tool) <==>
              name == "content_block_start" && json.start(data) == Some(BlockStart(i, kind, id, tool))
    ensures forall i, text :: Decode(json, name, data) == TextDelta(i, text) <==>
              name == "content_block_delta" && json.delta(data) == Some(TextDelta(i, text))
    ensures forall i, partial :: Decode(json, name, data) == JsonDelta(i, partial) <==>
              name == "content_block_delta" && json.delta(data) == Some(JsonDelta(i, partial))
    ensures forall i :: Decode(json, name, data) == BlockStop(i) <==>
              name == "content_block_stop" && json.stop(data) == Some(i)
    ensures forall n :: Decode(json, name, data) == InputTokens(n) <==>
              name == "message_start" && json.input(data) == Some(n)
    ensures forall n :: Decode(json, name, data) == OutputTokens(n) <==>
              name == "message_delta" && json.output(data) == Some(n)
    ensures Decode(json, name, data) == MessageStop <==> name == "message_stop"
    ensures forall m :: Decode(json, name, data) == Failure(m) <==>
              name == "error" && m == if json.failure(data).Some? then json.failure(data).value else data
  {
  }

  // ---------------------------------------------------------------- which chunk comes from which event

  /** Event `j` started block `i`, and no event since has started or stopped it. */
  ghost predicate StartedAt(es: seq<Event>, i: int, j: nat) {
    && j < |es| && es[j].BlockStart? && es[j].index == i
    && forall k :: j < k < |es| ==> (es[k].BlockStart? || es[k].BlockStop? ==> es[k].index != i)
  }

  lemma StartedIsOpen(es: seq<Event>, i: int, j: nat)
    requires StartedAt(es, i, j)
    ensures Opens(es, i, j)
  {
  }

  lemma BodySnoc(json: Json, es: seq<Event>, e: Event)
    ensures Body(json, es + [e]) == Body(json, es) + Emitted(json, es, e)
  {
    assert (es + [e])[..|es|] == es;
  }

  /** The text of a delta to a started block is emitted at once. */
  lemma TextIsEmitted(json: Json, es: seq<Event>, i: int, j: nat, text: string)
    requires StartedAt(es, i, j)
    ensures Body(json, es + [TextDelta(i, text)]) == Body(json, es) + [TextChunk(text)]
  {
    StartedIsOpen(es, i, j);
    BodySnoc(json, es, TextDelta(i, text));
  }

  /** When a started block stops, a tool-use block emits its call and any other block nothing. */
  lemma CallIsEmitted(json: Json, es: seq<Event>, i: int, j: nat)
    requires StartedAt(es, i, j)
    ensures Body(json, es + [BlockStop(i)]) == Body(json, es) +
              if es[j].kind != "tool_use" then []
              else [ToolUseChunk(Some(ToolCall(es[j].id, es[j].name, json.arguments(Joined(es[j + 1..], i)))))]
  {
    StartedIsOpen(es, i, j);
    OpenBlockIs(es, i, j);
    BodySnoc(json, es, BlockStop(i));
  }

  /** Nothing else emits anything: not a start, a JSON fragment or a count, and not a delta to or the stop of a
      block that is not started. */
  lemma NothingElseIsEmitted(json: Json, es: seq<Event>, e: Event)
    requires e.TextDelta? || e.BlockStop? ==> forall j: nat :: !StartedAt(es, e.index, j)
    ensures Body(json, es + [e]) == Body(json, es)
  {
    BodySnoc(json, es, e);
    if e.TextDelta? || e.BlockStop? {
      NotStartedIsNotOpen(es, e.index);
    }
  }

  lemma NotStartedIsNotOpen(es: seq<Event>, i: int)
    requires forall j: nat :: !StartedAt(es, i, j)
    ensures !IsOpen(es, i)
  {
    forall j: nat ensures Opens(es, i, j) ==> StartedAt(es, i, j) {
      assert forall k :: j < k < |es| && !Boundary(es[k], i) ==>
        (es[k].BlockStart? || es[k].BlockStop? ==> es[k].index != i);
    }
  }

  lemma NoEventsEmitNothing(json: Json)
    ensures Body(json, []) == []
  {
  }

  // ---------------------------------------------------------------- the end of the output

  predicate EndsStream(e: Sse) {
    e.0 == "message_stop" || e.0 == "error"
  }

  predicate Unended(sse: seq<Sse>) {
    forall j :: 0 <= j < |sse| ==> !EndsStream(sse[j])
  }

  /** The tokens that the events named `name` report. */
  function Counted(sse: seq<Sse>, name: string, count: string -> Option<int>): int {
    if sse == [] then 0
    else
      (if sse[0].0 == name && count(sse[0].1).Some? then count(sse[0].1).value else 0) + Counted(sse[1..], name, count)
  }

  lemma {:induction false} CountedSnoc(sse: seq<Sse>, e: Sse, name: string, count: string -> Option<int>)
    ensures Counted(sse + [e], name, count) ==
            Counted(sse, name, count) + if e.0 == name && count(e.1).Some? then count(e.1).value else 0
  {
    if sse == [] {
      assert sse + [e] == [e] && [e][1..] == [];
    } else {
      assert (sse + [e])[1..] == sse[1..] + [e];
      CountedSnoc(sse[1..], e, name, count);
    }
  }

  lemma DecodedSnoc(json: Json, sse: seq<Sse>, e: Sse)
    ensures Decoded(json, sse + [e]) == Decoded(json, sse) + [Decode(json, e.0, e.1)]
  {
  }

  lemma TotalSnoc(es: seq<Event>, e: Event)
    ensures Total(es + [e]) == Usage(Total(es).input + if e.InputTokens? then e.count else 0,
                                     Total(es).output + if e.OutputTokens? then e.count else 0)
  {
    assert (es + [e])[..|es|] == es;
  }

  lemma {:induction false} TotalIsCounted(json: Json, sse: seq<Sse>)
    ensures Total(Decoded(json, sse)) ==
            Usage(Counted(sse, "message_start", json.input), Counted(sse, "message_delta", json.output))
  {
    if sse != [] {
      var init, e := sse[..|sse| - 1], sse[|sse| - 1];
      assert sse == init + [e];
      TotalIsCounted(json, init);
      DecodedSnoc(json, init, e);
      TotalSnoc(Decoded(json, init), Decode(json, e.0, e.1));
      CountedSnoc(init, e, "message_start", json.input);
      CountedSnoc(init, e, "message_delta", json.output);
    }
  }

  lemma {:induction false} UnendedIsLive(json: Json, sse: seq<Sse>)
    requires Unended(sse)
    ensures Live(Decoded(json, sse)) == Decoded(json, sse) && Ending(Decoded(json, sse)).None?
  {
    if sse != [] {
      UnendedIsLive(json, sse[1..]);
      var es := Decoded(json, sse);
      assert es[1..] == Decoded(json, sse[1..]) && !EndsStream(sse[0]);
      assert es == [es[0]] + es[1..];
    }
  }

  lemma EndIsFound(json: Json, before: seq<Sse>, e: Sse, after: seq<Sse>)
    requires Unended(before) && EndsStream(e)
    ensures Live(Decoded(json, before + [e] + after)) == Decoded(json, before)
    ensures Ending(Decoded(json, before + [e] + after)) == Some(Decode(json, e.0, e.1))
  {
    var a, b := Decoded(json, before), Decoded(json, [e] + after);
    assert Decoded(json, before + [e] + after) == a + b;
    UnendedIsLive(json, before);
    LiveAppend(a, b);
    assert Live(b) == [] && Ending(b) == Some(b[0]);
  }

  /** The chunks emitted so far. */
  function Chunks(json: Json, sse: seq<Sse>): seq<Chunk> {
    Run(json, Init(), Decoded(json, sse)).chunks
  }

  /** A stream without a terminal event: everything that was emitted, then a Done without usage. */
  lemma OutputOfUnended(json: Json, sse: seq<Sse>)
    requires Unended(sse)
    ensures Output(json, Decoded(json, sse)) == Chunks(json, sse) + [DoneChunk(None)]
  {
    UnendedIsLive(json, sse);
    RunSaysWhatTheEventsSay(json, Decoded(json, sse));
  }

  /** The first terminal event ends the output, whatever follows: message_stop with a Done that has the tokens of
      all message_start and all message_delta events before it, each on its own side, if there are any; an error
      with its message, or its raw data. */
  lemma OutputEndsAt(json: Json, before: seq<Sse>, e: Sse, after: seq<Sse>)
    requires Unended(before)
    ensures var n, m := Counted(before, "message_start", json.input), Counted(before, "message_delta", json.output);
            e.0 == "message_stop" ==>
              Output(json, Decoded(json, before + [e] + after)) ==
              Chunks(json, before) + [DoneChunk(if n > 0 || m > 0 then Some(Usage(n, m)) else None)]
    ensures e.0 == "error" ==>
              Output(json, Decoded(json, before + [e] + after)) ==
              Chunks(json, before) +
              [ErrorChunk(if json.failure(e.1).Some? then json.failure(e.1).value else e.1)]
  {
    if EndsStream(e) {
      EndIsFound(json, before, e, after);
      TotalIsCounted(json, before);
      RunSaysWhatTheEventsSay(json, Decoded(json, before));
    }
  }

  // ---------------------------------------------------------------- a whole message

  /** The events carry these fragments for block `i`, in this order. */
  ghost predicate Carry(json: Json, sse: seq<Sse>, i: int, ps: seq<string>) {
    && |sse| == |ps|
    && forall k :: 0 <= k < |sse| ==>
         sse[k].0 == "content_block_delta" && json.delta(sse[k].1) == Some(JsonDelta(i, ps[k]))
  }

  function Concat(ps: seq<string>): string {
    if ps == [] then "" else ps[0] + Concat(ps[1..])
  }

  function Fragments(i: int, ps: seq<string>): seq<Event> {
    if ps == [] then [] else [JsonDelta(i, ps[0])] + Fragments(i, ps[1..])
  }

  lemma {:induction false} CarriedAreFragments(json: Json, sse: seq<Sse>, i: int, ps: seq<string>)
    requires Carry(json, sse, i, ps)
    ensures Decoded(json, sse) == Fragments(i, ps) && Unended(sse)
  {
    if sse != [] {
      CarriedAreFragments(json, sse[1..], i, ps[1..]);
      assert Decode(json, sse[0].0, sse[0].1) == JsonDelta(i, ps[0]);
      assert Decoded(json, sse) == [JsonDelta(i, ps[0])] + Decoded(json, sse[1..]);
    }
  }

  lemma RunCons(json: Json, s: State, e: Event, es: seq<Event>)
    ensures Run(json, s, [e] + es) == Run(json, Step(json, s, e), es)
  {
    RunAppend(json, s, [e], es);
    RunOne(json, s, e);
  }

  lemma RunSnoc(json: Json, s: State, es: seq<Event>, e: Event)
    ensures Run(json, s, es + [e]) == Step(json, Run(json, s, es), e)
  {
    RunAppend(json, s, es, [e]);
    RunOne(json, Run(json, s, es), e);
  }

  function Extended(s: State, i: int, more: string): State
    requires i in s.blocks
  {
    s.(blocks := s.blocks[i := s.blocks[i].(inputJson := s.blocks[i].inputJson + more)])
  }

  lemma ExtendedTwice(s: State, i: int, p: string, q: string)
    requires i in s.blocks
    ensures Extended(Extended(s, i, p), i, q) == Extended(s, i, p + q)
    ensures Extended(s, i, "") == s
  {
    assert s.blocks[i].inputJson + p + q == s.blocks[i].inputJson + (p + q);
    assert s.blocks[i].inputJson + "" == s.blocks[i].inputJson;
  }

  lemma {:induction false} FragmentsExtend(json: Json, s: State, i: int, ps: seq<string>)
    requires i in s.blocks
    ensures Run(json, s, Fragments(i, ps)) == Extended(s, i, Concat(ps))
    decreases |ps|
  {
    if ps == [] {
      ExtendedTwice(s, i, "", "");
    } else {
      RunCons(json, s, JsonDelta(i, ps[0]), Fragments(i, ps[1..]));
      FragmentsExtend(json, Extended(s, i, ps[0]), i, ps[1..]);
      ExtendedTwice(s, i, ps[0], Concat(ps[1..]));
    }
  }

  function CallChunk(json: Json, id: string, name: string, ps: seq<string>): Chunk {
    ToolUseChunk(Some(ToolCall(id, name, json.arguments(Concat(ps)))))
  }

  lemma EventsBecomeACall(json: Json, s: State, es: seq<Event>, i: int, id: string, name: string, ps: seq<string>)
    ensures Run(json, s, es + [BlockStart(i, "tool_use", id, name)] + Fragments(i, ps) + [BlockStop(i)]).chunks ==
            Run(json, s, es).chunks + [CallChunk(json, id, name, ps)]
  {
    var open := es + [BlockStart(i, "tool_use", id, name)];
    RunSnoc(json, s, es, BlockStart(i, "tool_use", id, name));
    RunAppend(json, s, open, Fragments(i, ps));
    FragmentsExtend(json, Run(json, s, open), i, ps);
    RunSnoc(json, s, open + Fragments(i, ps), BlockStop(i));
    assert "" + Concat(ps) == Concat(ps);
  }

  lemma DecodedAppend(json: Json, a: seq<Sse>, b: seq<Sse>)
    ensures Decoded(json, a + b) == Decoded(json, a) + Decoded(json, b)
  {
  }

  lemma DecodedBlock(json: Json, before: seq<Sse>, start: Sse, parts: seq<Sse>, stop: Sse)
    ensures Decoded(json, before + [start] + parts + [stop]) ==
            Decoded(json, before) + [Decode(json, start.0, start.1)] + Decoded(json, parts)
            + [Decode(json, stop.0, stop.1)]
  {
    DecodedSnoc(json, before + [start] + parts, stop);
    DecodedAppend(json, before + [start], parts);
    DecodedSnoc(json, before, start);
  }

  predicate StartsTool(json: Json, e: Sse, i: int, id: string, name: string) {
    e.0 == "content_block_start" && json.start(e.1) == Some(BlockStart(i, "tool_use", id, name))
  }

  predicate StopsBlock(json: Json, e: Sse, i: int) {
    e.0 == "content_block_stop" && json.stop(e.1) == Some(i)
  }

  /** After any stream: the start of a tool-use block, its fragments and its stop add exactly one call, with the
      id and name of the start and the fragments joined. */
  lemma BlockBecomesACall(json: Json, before: seq<Sse>, start: Sse, i: int, id: string, name: string,
                          parts: seq<Sse>, ps: seq<string>, stop: Sse)
    requires StartsTool(json, start, i, id, name) && Carry(json, parts, i, ps) && StopsBlock(json, stop, i)
    ensures Chunks(json, before + [start] + parts + [stop]) ==
            Chunks(json, before) + [ToolUseChunk(Some(ToolCall(id, name, json.arguments(Concat(ps)))))]
  {
    DecodedBlock(json, before, start, parts, stop);
    CarriedAreFragments(json, parts, i, ps);
    EventsBecomeACall(json, Init(), Decoded(json, before), i, id, name, ps);
  }

  lemma {:induction false} CountedAppend(a: seq<Sse>, b: seq<Sse>, name: string, count: string -> Option<int>)
    ensures Counted(a + b, name, count) == Counted(a, name, count) + Counted(b, name, count)
  {
    if a == [] {
      assert a + b == b;
    } else {
      assert (a + b)[1..] == a[1..] + b;
      CountedAppend(a[1..], b, name, count);
    }
  }

  predicate Named(sse: seq<Sse>, name: string) {
    forall k :: 0 <= k < |sse| ==> sse[k].0 == name
  }

  lemma {:induction false} CountedOthers(sse: seq<Sse>, other: string, name: string, count: string -> Option<int>)
    requires Named(sse, other) && other != name
    ensures Counted(sse, name, count) == 0
  {
    if sse != [] {
      CountedOthers(sse[1..], other, name, count);
    }
  }

  lemma CountedOne(e: Sse, name: string, count: string -> Option<int>)
    ensures Counted([e], name, count) == if e.0 == name && count(e.1).Some? then count(e.1).value else 0
  {
    assert [e][1..] == [];
  }

  predicate Counts(e: Sse, name: string, count: string -> Option<int>, n: int) {
    e.0 == name && count(e.1) == Some(n)
  }

  /** A message made of one tool use, from message_start to message_stop, gives that call and then Done with the
      input tokens of its start and the output tokens of its delta. */
  lemma ToolMessage(json: Json, head: Sse, start: Sse, parts: seq<Sse>, stop: Sse, tail: Sse, end: Sse,
                    after: seq<Sse>, i: int, id: string, name: string, ps: seq<string>, n: int, m: int)
    requires Counts(head, "message_start", json.input, n) && Counts(tail, "message_delta", json.output, m)
    requires StartsTool(json, start, i, id, name) && Carry(json, parts, i, ps) && StopsBlock(json, stop, i)
    requires end.0 == "message_stop"
    ensures Output(json, Decoded(json, [head] + [start] + parts + [stop] + [tail] + [end] + after)) ==
            [ToolUseChunk(Some(ToolCall(id, name, json.arguments(Concat(ps)))))]
            + [DoneChunk(if n > 0 || m > 0 then Some(Usage(n, m)) else None)]
  {
    var message := [head] + [start] + parts + [stop] + [tail];
    MessageBody(json, head, start, parts, stop, tail, i, id, name, ps);
    MessageCounts(json, head, start, parts, stop, tail);
    MessageIsUnended(json, head, start, parts, stop, tail, i, ps);
    OutputEndsAt(json, message, end, after);
  }

  lemma MessageIsUnended(json: Json, head: Sse, start: Sse, parts: seq<Sse>, stop: Sse, tail: Sse, i: int,
                         ps: seq<string>)
    requires !EndsStream(head) && !EndsStream(start) && !EndsStream(stop) && !EndsStream(tail)
    requires Carry(json, parts, i, ps)
    ensures Unended([head] + [start] + parts + [stop] + [tail]) && Named(parts, "content_block_delta")
  {
  }

  lemma MessageBody(json: Json, head: Sse, start: Sse, parts: seq<Sse>, stop: Sse, tail: Sse, i: int, id: string,
                    name: string, ps: seq<string>)
    requires head.0 == "message_start" && tail.0 == "message_delta"
    requires StartsTool(json, start, i, id, name) && Carry(json, parts, i, ps) && StopsBlock(json, stop, i)
    ensures Chunks(json, [head] + [start] + parts + [stop] + [tail]) == [CallChunk(json, id, name, ps)]
  {
    var block := [head] + [start] + parts + [stop];
    BlockBecomesACall(json, [head], start, i, id, name, parts, ps, stop);
    ChunksSnoc(json, [], head);
    ChunksSnoc(json, block, tail);
    assert [] + [head] == [head] && Decoded(json, []) == [];
  }

  lemma ChunksSnoc(json: Json, sse: seq<Sse>, e: Sse)
    ensures e.0 == "message_start" || e.0 == "message_delta" ==> Chunks(json, sse + [e]) == Chunks(json, sse)
  {
    DecodedSnoc(json, sse, e);
    RunSnoc(json, Init(), Decoded(json, sse), Decode(json, e.0, e.1));
  }

  lemma MessageCounts(json: Json, head: Sse, start: Sse, parts: seq<Sse>, stop: Sse, tail: Sse)
    requires head.0 == "message_start" && start.0 == "content_block_start" && Named(parts, "content_block_delta")
    requires stop.0 == "content_block_stop" && tail.0 == "message_delta"
    requires json.input(head.1).Some? && json.output(tail.1).Some?
    ensures var message := [head] + [start] + parts + [stop] + [tail];
            && Counted(message, "message_start", json.input) == json.input(head.1).value
            && Counted(message, "message_delta", json.output) == json.output(tail.1).value
  {
    CountedParts(head, start, parts, stop, tail, "message_start", json.input);
    CountedParts(head, start, parts, stop, tail, "message_delta", json.output);
    CountedOthers(parts, "content_block_delta", "message_start", json.input);
    CountedOthers(parts, "content_block_delta", "message_delta", json.output);
    CountedOne(head, "message_start", json.input);
    CountedOne(start, "message_start", json.input);
    CountedOne(stop, "message_start", json.input);
    CountedOne(tail, "message_start", json.input);
    CountedOne(head, "message_delta", json.output);
    CountedOne(start, "message_delta", json.output);
    CountedOne(stop, "message_delta", json.output);
    CountedOne(tail, "message_delta", json.output);
  }

  lemma CountedParts(head: Sse, start: Sse, parts: seq<Sse>, stop: Sse, tail: Sse, name: string,
                     count: string -> Option<int>)
    ensures Counted([head] + [start] + parts + [stop] + [tail], name, count) ==
            Counted([head], name, count) + Counted([start], name, count) + Counted(parts, name, count)
            + Counted([stop], name, count) + Counted([tail], name, count)
  {
    CountedAppend([head] + [start] + parts + [stop], [tail], name, count);
    CountedAppend([head] + [start] + parts, [stop], name, count);
    CountedAppend([head] + [start], parts, name, count);
    CountedAppend([head], [start], name, count);
  }
}
