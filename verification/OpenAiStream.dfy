/** The incremental parser of OpenAI chat streams (agent/openai/openai.go): tool calls arrive in fragments
    tagged with an index and are put together before they are emitted.

    The two uses of JSON are parameters: how an event's data decodes, and which argument object an
    argument text stands for (the empty object when it is empty or does not decode). */
module OpenAiStream {
  import opened Common
  import opened Provider
  import opened SortedSets

  datatype ToolDelta = ToolDelta(index: int, id: string, name: string, arguments: string)

  datatype Choice = Choice(content: string, deltas: seq<ToolDelta>, finishReason: string)

  datatype Response = Response(usage: Option<Usage>, choices: seq<Choice>)

  datatype Json = Json(response: string -> Option<Response>, input: string -> string)

  /** toolCallAccumulator */
  datatype Accumulator = Accumulator(id: string, name: string, args: string)

  type Pending = map<int, Accumulator>

  // ---------------------------------------------------------------- what a stream says

  predicate Finishes(r: Response) {
    r.choices != [] && r.choices[0].finishReason != ""
  }

  /** The responses that are taken into account: up to `[DONE]` or the first that finishes, without the
      malformed ones. */
  function Taken(json: Json, data: seq<string>): seq<Response> {
    if data == [] || IsDone(data[0]) then []
    else match json.response(data[0])
      case None => Taken(json, data[1..])
      case Some(r) => if Finishes(r) then [r] else [r] + Taken(json, data[1..])
  }

  function TextOf(r: Response): seq<Chunk> {
    if r.choices != [] && r.choices[0].content != "" then [TextChunk(r.choices[0].content)] else []
  }

  function DeltasOf(r: Response): seq<ToolDelta> {
    if r.choices != [] then r.choices[0].deltas else []
  }

  function Texts(rs: seq<Response>): seq<Chunk> {
    if rs == [] then [] else Texts(rs[..|rs| - 1]) + TextOf(rs[|rs| - 1])
  }

  function Deltas(rs: seq<Response>): seq<ToolDelta> {
    if rs == [] then [] else Deltas(rs[..|rs| - 1]) + DeltasOf(rs[|rs| - 1])
  }

  function TotalUsage(rs: seq<Response>): Usage {
    if rs == [] then Usage(0, 0)
    else
      var u := TotalUsage(rs[..|rs| - 1]);
      match rs[|rs| - 1].usage
      case None => u
      case Some(v) => Usage(u.input + v.input, u.output + v.output)
  }

  function Done(u: Usage): Chunk {
    DoneChunk(if u.input > 0 || u.output > 0 then Some(u) else None)
  }

  // ---------------------------------------------------------------- what the fragments of one index say

  /** The fragments of one call, in the order they arrived. */
  function Fragments(ds: seq<ToolDelta>, index: int): seq<ToolDelta> {
    if ds == [] then []
    else Fragments(ds[..|ds| - 1], index) + if ds[|ds| - 1].index == index then [ds[|ds| - 1]] else []
  }

  function Arguments(fs: seq<ToolDelta>): string {
    if fs == [] then "" else Arguments(fs[..|fs| - 1]) + fs[|fs| - 1].arguments
  }

  /** The last id that is not empty, if any. */
  function LastId(fs: seq<ToolDelta>): string {
    if fs == [] then "" else if fs[|fs| - 1].id != "" then fs[|fs| - 1].id else LastId(fs[..|fs| - 1])
  }

  function LastName(fs: seq<ToolDelta>): string {
    if fs == [] then "" else if fs[|fs| - 1].name != "" then fs[|fs| - 1].name else LastName(fs[..|fs| - 1])
  }

  function Assembled(fs: seq<ToolDelta>): Accumulator {
    Accumulator(LastId(fs), LastName(fs), Arguments(fs))
  }

  // ---------------------------------------------------------------- accumulating

  function AddDelta(m: Pending, d: ToolDelta): Pending {
    var acc := if d.index in m then m[d.index] else Accumulator(d.id, d.name, "");
    m[d.index := Accumulator(if d.id != "" then d.id else acc.id,
                             if d.name != "" then d.name else acc.name,
                             acc.args + d.arguments)]
  }

  function AddDeltas(m: Pending, ds: seq<ToolDelta>): Pending {
    if ds == [] then m else AddDelta(AddDeltas(m, ds[..|ds| - 1]), ds[|ds| - 1])
  }

  lemma AddDeltasSnoc(m: Pending, ds: seq<ToolDelta>, d: ToolDelta)
    ensures AddDeltas(m, ds + [d]) == AddDelta(AddDeltas(m, ds), d)
  {
    assert (ds + [d])[..|ds|] == ds;
  }

  lemma {:induction false} AddDeltasAppend(m: Pending, a: seq<ToolDelta>, b: seq<ToolDelta>)
    ensures AddDeltas(m, a + b) == AddDeltas(AddDeltas(m, a), b)
  {
    if b == [] {
      assert a + b == a;
    } else {
      assert (a + b)[..|a + b| - 1] == a + b[..|b| - 1];
      AddDeltasAppend(m, a, b[..|b| - 1]);
    }
  }

  lemma AssembledSnoc(fs: seq<ToolDelta>, d: ToolDelta)
    ensures Assembled(fs + [d]) == Accumulator(if d.id != "" then d.id else LastId(fs),
                                               if d.name != "" then d.name else LastName(fs),
                                               Arguments(fs) + d.arguments)
  {
    assert (fs + [d])[..|fs|] == fs;
  }

  /** Whatever the interleaving, the accumulator of an index holds what its own fragments say. */
  lemma {:induction false} AccumulatorsHoldFragments(ds: seq<ToolDelta>, index: int)
    ensures index in AddDeltas(map[], ds) <==> Fragments(ds, index) != []
    ensures index in AddDeltas(map[], ds) ==> AddDeltas(map[], ds)[index] == Assembled(Fragments(ds, index))
  {
    if ds != [] {
      var init, last := ds[..|ds| - 1], ds[|ds| - 1];
      AccumulatorsHoldFragments(init, index);
      var fs := Fragments(init, index);
      if last.index == index {
        AssembledSnoc(fs, last);
        assert "" + last.arguments == last.arguments;
      } else {
        assert Fragments(ds, index) == fs;
      }
    }
  }

  // ---------------------------------------------------------------- flushing

  function ToolChunk(json: Json, a: Accumulator): Chunk {
    ToolUseChunk(Some(ToolCall(a.id, a.name, json.input(a.args))))
  }

  ghost predicate AllPending(indices: seq<int>, m: Pending) {
    forall i :: 0 <= i < |indices| ==> indices[i] in m
  }

  lemma SortedIndicesArePending(m: Pending)
    ensures AllPending(Sorted(m.Keys), m)
  {
    SortedListsTheSet(m.Keys);
  }

  ghost function ChunksAt(json: Json, m: Pending, indices: seq<int>): (r: seq<Chunk>)
    requires AllPending(indices, m)
  {
    seq(|indices|, i requires 0 <= i < |indices| => ToolChunk(json, m[indices[i]]))
  }

  /** The calls in ascending index order. */
  ghost function ToolChunks(json: Json, m: Pending): seq<Chunk> {
    SortedIndicesArePending(m);
    ChunksAt(json, m, Sorted(m.Keys))
  }

  method FlushTools(json: Json, tools: Pending) returns (chunks: seq<Chunk>, cleared: Pending)
    ensures chunks == ToolChunks(json, tools) && cleared == map[]
  {
    var indices := Sort(tools.Keys);
    SortedIndicesArePending(tools);
    chunks := [];
    for i := 0 to |indices|
      invariant chunks == ChunksAt(json, tools, indices)[..i]
    {
      chunks := chunks + [ToolChunk(json, tools[indices[i]])];
    }
    cleared := map[];
  }

  // ---------------------------------------------------------------- the parser

  /** Text chunks, then the tool calls in ascending index order, then one Done with the usage. */
  ghost function Output(json: Json, rs: seq<Response>): seq<Chunk> {
    Texts(rs) + ToolChunks(json, AddDeltas(map[], Deltas(rs))) + [Done(TotalUsage(rs))]
  }

  predicate IsDone(d: string) {
    d == "[DONE]"
  }

  /** `rs` are the responses taken from the first `i` events, the rest comes from the others. */
  ghost predicate At(json: Json, data: seq<string>, i: nat, rs: seq<Response>)
    requires i <= |data|
  {
    Taken(json, data) == rs + Taken(json, data[i..])
  }

  lemma AtStart(json: Json, data: seq<string>)
    ensures At(json, data, 0, [])
  {
    assert data[0..] == data;
  }

  /** What event `i` adds to the responses taken. */
  lemma AtNext(json: Json, data: seq<string>, i: nat, rs: seq<Response>)
    requires i < |data| && At(json, data, i, rs)
    ensures IsDone(data[i]) ==> Taken(json, data) == rs
    ensures !IsDone(data[i]) && json.response(data[i]).None? ==> At(json, data, i + 1, rs)
    ensures !IsDone(data[i]) && json.response(data[i]).Some? ==>
              var r := json.response(data[i]).value;
              if Finishes(r) then Taken(json, data) == rs + [r] else At(json, data, i + 1, rs + [r])
  {
    assert data[i..][1..] == data[i + 1..];
    if !IsDone(data[i]) && json.response(data[i]).Some? {
      var r := json.response(data[i]).value;
      assert rs + ([r] + Taken(json, data[i + 1..])) == (rs + [r]) + Taken(json, data[i + 1..]);
    }
  }

  lemma AtEnd(json: Json, data: seq<string>, rs: seq<Response>)
    requires At(json, data, |data|, rs)
    ensures Taken(json, data) == rs
  {
  }

  lemma ResponsesSnoc(rs: seq<Response>, r: Response)
    ensures Texts(rs + [r]) == Texts(rs) + TextOf(r)
    ensures Deltas(rs + [r]) == Deltas(rs) + DeltasOf(r)
    ensures TotalUsage(rs + [r]) == match r.usage
                                    case None => TotalUsage(rs)
                                    case Some(v) => Usage(TotalUsage(rs).input + v.input,
                                                          TotalUsage(rs).output + v.output)
  {
    assert (rs + [r])[..|rs|] == rs;
  }

  method AddToolCalls(pending: Pending, deltas: seq<ToolDelta>) returns (m: Pending)
    ensures m == AddDeltas(pending, deltas)
  {
    m := pending;
    for i := 0 to |deltas|
      invariant m == AddDeltas(pending, deltas[..i])
    {
      var tc := deltas[i];
      AddDeltasSnoc(pending, deltas[..i], tc);
      assert deltas[..i + 1] == deltas[..i] + [tc];
      var acc := if tc.index in m then m[tc.index] else Accumulator(tc.id, tc.name, "");
      if tc.id != "" {
        acc := acc.(id := tc.id);
      }
      if tc.name != "" {
        acc := acc.(name := tc.name);
      }
      m := m[tc.index := acc.(args := acc.args + tc.arguments)];
    }
    assert deltas[..|deltas|] == deltas;
  }

  /** What the loop has built from the responses taken so far. */
  ghost predicate Upto(rs: seq<Response>, chunks: seq<Chunk>, pending: Pending, usage: Usage) {
    chunks == Texts(rs) && pending == AddDeltas(map[], Deltas(rs)) && usage == TotalUsage(rs)
  }

  /** One response: its usage, its text and its tool fragments. */
  method TakeResponse(r: Response, chunks: seq<Chunk>, pending: Pending, usage: Usage, ghost rs: seq<Response>)
    returns (chunks': seq<Chunk>, pending': Pending, usage': Usage)
    requires Upto(rs, chunks, pending, usage)
    ensures Upto(rs + [r], chunks', pending', usage')
  {
    ResponsesSnoc(rs, r);
    AddDeltasAppend(map[], Deltas(rs), DeltasOf(r));
    chunks', pending', usage' := chunks, pending, usage;
    if r.usage.Some? {
      usage' := Usage(usage.input + r.usage.value.input, usage.output + r.usage.value.output);
    }
    if r.choices != [] {
      var delta := r.choices[0];
      if delta.content != "" {
        chunks' := chunks + [TextChunk(delta.content)];
      }
      pending' := AddToolCalls(pending, delta.deltas);
    }
  }

  method Finish(json: Json, chunks: seq<Chunk>, pending: Pending, usage: Usage, ghost rs: seq<Response>)
    returns (all: seq<Chunk>)
    requires Upto(rs, chunks, pending, usage)
    ensures all == Output(json, rs)
  {
    var calls, cleared := FlushTools(json, pending);
    all := chunks + calls + [Done(usage)];
  }

  method ParseOpenAIStream(json: Json, data: seq<string>) returns (chunks: seq<Chunk>)
    ensures chunks == Output(json, Taken(json, data))
  {
    chunks := [];
    var pending: Pending := map[];
    var usage := Usage(0, 0);
    ghost var rs: seq<Response> := [];
    AtStart(json, data);
    var i := 0;
    while i < |data|
      invariant 0 <= i <= |data|
      invariant Upto(rs, chunks, pending, usage) && At(json, data, i, rs)
    {
      AtNext(json, data, i, rs);
      if IsDone(data[i]) {
        chunks := Finish(json, chunks, pending, usage, rs);
        return;
      }
      var decoded := json.response(data[i]);
      if decoded.Some? {
        var r := decoded.value;
        chunks, pending, usage := TakeResponse(r, chunks, pending, usage, rs);
        rs := rs + [r];
        if Finishes(r) {
          chunks := Finish(json, chunks, pending, usage, rs);
          return;
        }
      }
      i := i + 1;
    }
    AtEnd(json, data, rs);
    chunks := Finish(json, chunks, pending, usage, rs);
  }

  // ---------------------------------------------------------------- what does not matter

  /** Two streams of fragments say the same when each index gets the same id, name and arguments. */
  ghost predicate SameCalls(ds: seq<ToolDelta>, ds': seq<ToolDelta>) {
    forall i :: SameCall(ds, ds', i)
  }

  ghost predicate SameCall(ds: seq<ToolDelta>, ds': seq<ToolDelta>, i: int) {
    (Fragments(ds, i) == [] <==> Fragments(ds', i) == []) && Assembled(Fragments(ds, i)) == Assembled(Fragments(ds', i))
  }

  lemma SameCallsSameMap(ds: seq<ToolDelta>, ds': seq<ToolDelta>)
    requires SameCalls(ds, ds')
    ensures AddDeltas(map[], ds) == AddDeltas(map[], ds')
  {
    var m, m' := AddDeltas(map[], ds), AddDeltas(map[], ds');
    forall i ensures i in m <==> i in m' {
      assert SameCall(ds, ds', i);
      AccumulatorsHoldFragments(ds, i);
      AccumulatorsHoldFragments(ds', i);
    }
    forall i | i in m ensures m[i] == m'[i] {
      assert SameCall(ds, ds', i);
      AccumulatorsHoldFragments(ds, i);
      AccumulatorsHoldFragments(ds', i);
    }
  }

  /** How the fragments of different calls are interleaved, and how they are spread over the events, makes
      no difference: streams with the same text, the same usage and the same fragments per index give the
      same chunks. */
  lemma InterleavingDoesNotMatter(json: Json, rs: seq<Response>, rs': seq<Response>)
    requires Texts(rs) == Texts(rs') && TotalUsage(rs) == TotalUsage(rs')
    requires forall i :: Fragments(Deltas(rs), i) == Fragments(Deltas(rs'), i)
    ensures Output(json, rs) == Output(json, rs')
  {
    assert SameCalls(Deltas(rs), Deltas(rs'));
    SameCallsSameMap(Deltas(rs), Deltas(rs'));
  }

  /** Streams that say the same of each call give the same chunks. */
  lemma SameCallsSameOutput(json: Json, rs: seq<Response>, rs': seq<Response>)
    requires Texts(rs) == Texts(rs') && TotalUsage(rs) == TotalUsage(rs')
    requires AddDeltas(map[], Deltas(rs)) == AddDeltas(map[], Deltas(rs'))
    ensures Output(json, rs) == Output(json, rs')
  {
  }

  lemma SplitPending(before: seq<ToolDelta>, d: ToolDelta, rest: string, after: seq<ToolDelta>)
    ensures AddDeltas(map[], before + [d.(arguments := d.arguments + rest)] + after)
         == AddDeltas(map[], before + [d] + [ToolDelta(d.index, "", "", rest)] + after)
  {
    var whole := d.(arguments := d.arguments + rest);
    var tail := ToolDelta(d.index, "", "", rest);
    AddDeltasAppend(map[], before + [whole], after);
    AddDeltasAppend(map[], before + [d] + [tail], after);
    AddDeltasSnoc(map[], before, whole);
    AddDeltasSnoc(map[], before + [d], tail);
    AddDeltasSnoc(map[], before, d);
    SplitDelta(AddDeltas(map[], before), d, rest);
  }

  /** Splitting an argument fragment in two makes no difference either, be it within one event or over
      several: streams with the same text and usage, one of which has a fragment in two parts, give the same
      chunks. */
  lemma SplittingDoesNotMatter(json: Json, rs: seq<Response>, rs': seq<Response>,
                               before: seq<ToolDelta>, d: ToolDelta, rest: string, after: seq<ToolDelta>)
    requires Texts(rs) == Texts(rs') && TotalUsage(rs) == TotalUsage(rs')
    requires Deltas(rs) == before + [d.(arguments := d.arguments + rest)] + after
    requires Deltas(rs') == before + [d] + [ToolDelta(d.index, "", "", rest)] + after
    ensures Output(json, rs) == Output(json, rs')
  {
    SplitPending(before, d, rest, after);
    SameCallsSameOutput(json, rs, rs');
  }

  lemma SplitDelta(m: Pending, d: ToolDelta, rest: string)
    ensures AddDelta(m, d.(arguments := d.arguments + rest))
              == AddDelta(AddDelta(m, d), ToolDelta(d.index, "", "", rest))
  {
    var args := if d.index in m then m[d.index].args else "";
    assert args + (d.arguments + rest) == (args + d.arguments) + rest;
  }

  // ---------------------------------------------------------------- which usage is counted

  /** All responses that decode, up to `[DONE]`. */
  function Decoded(json: Json, data: seq<string>): seq<Response> {
    if data == [] || IsDone(data[0]) then []
    else match json.response(data[0])
      case None => Decoded(json, data[1..])
      case Some(r) => [r] + Decoded(json, data[1..])
  }

  /** The responses that come after the first one that finishes. */
  function Missed(json: Json, data: seq<string>): seq<Response> {
    if data == [] || IsDone(data[0]) then []
    else match json.response(data[0])
      case None => Missed(json, data[1..])
      case Some(r) => if Finishes(r) then Decoded(json, data[1..]) else Missed(json, data[1..])
  }

  lemma {:induction false} TakenAndMissed(json: Json, data: seq<string>)
    ensures Decoded(json, data) == Taken(json, data) + Missed(json, data)
  {
    if data != [] && !IsDone(data[0]) {
      TakenAndMissed(json, data[1..]);
    }
  }

  function Plus(u: Usage, v: Usage): Usage {
    Usage(u.input + v.input, u.output + v.output)
  }

  lemma {:induction false} TotalUsageAppend(a: seq<Response>, b: seq<Response>)
    ensures TotalUsage(a + b) == Plus(TotalUsage(a), TotalUsage(b))
  {
    if b == [] {
      assert a + b == a;
    } else {
      assert (a + b)[..|a + b| - 1] == a + b[..|b| - 1];
      TotalUsageAppend(a, b[..|b| - 1]);
    }
  }

  predicate NoNegativeUsage(rs: seq<Response>) {
    forall i :: 0 <= i < |rs| && rs[i].usage.Some? ==> rs[i].usage.value.input >= 0 && rs[i].usage.value.output >= 0
  }

  predicate ReportsNothing(r: Response) {
    r.usage.Some? ==> r.usage.value == Usage(0, 0)
  }

  ghost predicate ReportNothing(rs: seq<Response>) {
    forall i :: 0 <= i < |rs| ==> ReportsNothing(rs[i])
  }

  lemma {:induction false} NoUsage(rs: seq<Response>)
    requires NoNegativeUsage(rs)
    ensures TotalUsage(rs).input >= 0 && TotalUsage(rs).output >= 0
    ensures TotalUsage(rs) == Usage(0, 0) <==> ReportNothing(rs)
  {
    if rs != [] {
      var n := |rs| - 1;
      NoUsage(rs[..n]);
      assert forall i :: 0 <= i < n ==> rs[..n][i] == rs[i];
    }
  }

  lemma NoNegativeUsageParts(a: seq<Response>, b: seq<Response>)
    requires NoNegativeUsage(a + b)
    ensures NoNegativeUsage(a) && NoNegativeUsage(b)
  {
    assert forall i :: 0 <= i < |a| ==> (a + b)[i] == a[i];
    forall i | 0 <= i < |b| && b[i].usage.Some?
      ensures b[i].usage.value.input >= 0 && b[i].usage.value.output >= 0
    {
      assert (a + b)[|a| + i] == b[i];
    }
  }

  /** The final Done carries the tokens of the whole stream if and only if no response after the first one that
      finishes reports any. */
  lemma UsageIsWholeExactly(json: Json, data: seq<string>)
    requires NoNegativeUsage(Decoded(json, data))
    ensures Done(TotalUsage(Taken(json, data))) == Done(TotalUsage(Decoded(json, data))) <==>
              ReportNothing(Missed(json, data))
  {
    TakenAndMissed(json, data);
    UsageOfTheFirstPart(Taken(json, data), Missed(json, data));
  }

  lemma UsageOfTheFirstPart(taken: seq<Response>, missed: seq<Response>)
    requires NoNegativeUsage(taken + missed)
    ensures Done(TotalUsage(taken)) == Done(TotalUsage(taken + missed)) <==> ReportNothing(missed)
  {
    TotalUsageAppend(taken, missed);
    NoNegativeUsageParts(taken, missed);
    NoUsage(taken);
    NoUsage(missed);
  }

  /** A stream that reports its usage in a last response of its own, after the one that finishes. */
  lemma FinalUsageIsMissed(json: Json, last: Response, usage: Response, u: Usage)
    requires json.response("last") == Some(last) && Finishes(last) && last.usage.None?
    requires json.response("usage") == Some(usage) && usage.usage == Some(u)
    ensures var data := ["last", "usage", "[DONE]"];
            && TotalUsage(Taken(json, data)) == Usage(0, 0)
            && TotalUsage(Decoded(json, data)) == u
  {
    var data := ["last", "usage", "[DONE]"];
    assert data[1..] == ["usage", "[DONE]"] && data[1..][1..] == ["[DONE]"];
    assert Taken(json, data) == [last];
    assert Decoded(json, ["[DONE]"]) == [];
    assert Decoded(json, data[1..]) == [usage];
    assert Decoded(json, data) == [last] + [usage];
    TotalUsageAppend([last], [usage]);
    assert [last][..0] == [] && [usage][..0] == [];
  }

  // ---------------------------------------------------------------- the shape of every output

  lemma {:induction false} TextsAreText(rs: seq<Response>, k: nat)
    requires k < |Texts(rs)|
    ensures Texts(rs)[k].TextChunk?
  {
    var init, last := rs[..|rs| - 1], rs[|rs| - 1];
    if k < |Texts(init)| {
      TextsAreText(init, k);
      assert Texts(rs)[k] == Texts(init)[k];
    } else {
      assert Texts(rs)[k] == TextOf(last)[k - |Texts(init)|];
    }
  }

  lemma ToolChunksLength(json: Json, m: Pending)
    ensures |ToolChunks(json, m)| == |Sorted(m.Keys)|
  {
  }

  lemma ToolChunkAt(json: Json, m: Pending, indices: seq<int>, k: nat)
    requires indices == Sorted(m.Keys) && k < |indices|
    ensures indices[k] in m && |ToolChunks(json, m)| == |indices|
            && ToolChunks(json, m)[k] == ToolChunk(json, m[indices[k]])
  {
    SortedIndicesArePending(m);
  }

  /** The call at one position is made of the fragments of its index. */
  lemma ToolChunksShape(json: Json, ds: seq<ToolDelta>, indices: seq<int>, k: nat)
    requires indices == Sorted(AddDeltas(map[], ds).Keys) && k < |indices|
    ensures |ToolChunks(json, AddDeltas(map[], ds))| == |indices|
    ensures ToolChunks(json, AddDeltas(map[], ds))[k] == ToolChunk(json, Assembled(Fragments(ds, indices[k])))
  {
    ToolChunkAt(json, AddDeltas(map[], ds), indices, k);
    AccumulatorsHoldFragments(ds, indices[k]);
  }

  lemma IndicesOfFragments(ds: seq<ToolDelta>, i: int)
    ensures Ascending(Sorted(AddDeltas(map[], ds).Keys))
    ensures i in Sorted(AddDeltas(map[], ds).Keys) <==> Fragments(ds, i) != []
  {
    var m := AddDeltas(map[], ds);
    SortedListsTheSet(m.Keys);
    AccumulatorsHoldFragments(ds, i);
  }

  /** What the fragments of each index say. */
  function Assemblies(ds: seq<ToolDelta>, indices: seq<int>): seq<Accumulator> {
    seq(|indices|, i requires 0 <= i < |indices| => Assembled(Fragments(ds, indices[i])))
  }

  ghost predicate AllText(chunks: seq<Chunk>) {
    forall i :: 0 <= i < |chunks| ==> chunks[i].TextChunk?
  }

  ghost predicate AreCalls(json: Json, tools: seq<Chunk>, calls: seq<Accumulator>) {
    |tools| == |calls| && forall i :: 0 <= i < |tools| ==> tools[i] == ToolChunk(json, calls[i])
  }

  /** What stands at position `k`: first text chunks, then the calls, then exactly one Done. */
  ghost predicate ShapedAt(json: Json, out: seq<Chunk>, texts: nat, calls: seq<Accumulator>, usage: Usage, k: nat)
    requires k < |out|
  {
    if k < texts then out[k].TextChunk?
    else if k - texts < |calls| then
      var a := calls[k - texts];
      out[k] == ToolUseChunk(Some(ToolCall(a.id, a.name, json.input(a.args))))
    else
      && k == |out| - 1
      && out[k] == DoneChunk(if usage.input > 0 || usage.output > 0 then Some(usage) else None)
  }

  lemma PartsAreShaped(json: Json, texts: seq<Chunk>, tools: seq<Chunk>, calls: seq<Accumulator>, usage: Usage, k: nat)
    requires AllText(texts) && AreCalls(json, tools, calls) && k < |texts| + |calls| + 1
    ensures ShapedAt(json, texts + tools + [Done(usage)], |texts|, calls, usage, k)
  {
  }

  lemma AllTextsAreText(rs: seq<Response>)
    ensures AllText(Texts(rs))
  {
    forall k | 0 <= k < |Texts(rs)| ensures Texts(rs)[k].TextChunk? {
      TextsAreText(rs, k);
    }
  }

  lemma ToolsAreCalls(json: Json, ds: seq<ToolDelta>, indices: seq<int>)
    requires indices == Sorted(AddDeltas(map[], ds).Keys)
    ensures AreCalls(json, ToolChunks(json, AddDeltas(map[], ds)), Assemblies(ds, indices))
  {
    ToolChunksLength(json, AddDeltas(map[], ds));
    var tools, calls := ToolChunks(json, AddDeltas(map[], ds)), Assemblies(ds, indices);
    forall k | 0 <= k < |tools| ensures tools[k] == ToolChunk(json, calls[k]) {
      ToolChunksShape(json, ds, indices, k);
    }
  }

  /** Every stream gives text chunks, then one tool call per index in strictly ascending order, each with
      the last id and name and the concatenated arguments of its own fragments, then exactly one Done. */
  lemma OutputShape(json: Json, rs: seq<Response>, indices: seq<int>, calls: seq<Accumulator>, k: nat)
    requires indices == Sorted(AddDeltas(map[], Deltas(rs)).Keys) && calls == Assemblies(Deltas(rs), indices)
    ensures |Output(json, rs)| == |Texts(rs)| + |calls| + 1
    ensures Output(json, rs)[..|Texts(rs)|] == Texts(rs)
    ensures k < |Output(json, rs)| ==> ShapedAt(json, Output(json, rs), |Texts(rs)|, calls, TotalUsage(rs), k)
  {
    var tools := ToolChunks(json, AddDeltas(map[], Deltas(rs)));
    AllTextsAreText(rs);
    ToolsAreCalls(json, Deltas(rs), indices);
    OutputIsShaped(json, rs, tools, calls, k);
  }

  lemma OutputIsShaped(json: Json, rs: seq<Response>, tools: seq<Chunk>, calls: seq<Accumulator>, k: nat)
    requires tools == ToolChunks(json, AddDeltas(map[], Deltas(rs)))
    requires AllText(Texts(rs)) && AreCalls(json, tools, calls)
    ensures |Output(json, rs)| == |Texts(rs)| + |calls| + 1
    ensures k < |Output(json, rs)| ==> ShapedAt(json, Output(json, rs), |Texts(rs)|, calls, TotalUsage(rs), k)
  {
    if k < |Texts(rs)| + |calls| + 1 {
      PartsAreShaped(json, Texts(rs), tools, calls, TotalUsage(rs), k);
    }
  }
}
