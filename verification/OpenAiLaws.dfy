/** What the OpenAI parser makes of a stream, said of the data of its events and the fields of its responses: which
    events count, what each response adds, and which id, name and arguments each call is given. */
module OpenAiLaws {
  import opened Common
  import opened Provider
  import opened SortedSets
  import opened OpenAiStream

  // ---------------------------------------------------------------- which events count

  /** The event ends the stream: the end marker, or a response whose first choice has a finish reason. */
  predicate EndsStream(json: Json, e: string) {
    || e == "[DONE]"
    || (json.response(e).Some? && json.response(e).value.choices != []
        && json.response(e).value.choices[0].finishReason != "")
  }

  predicate Unended(json: Json, data: seq<string>) {
    forall i :: 0 <= i < |data| ==> !EndsStream(json, data[i])
  }

  /** The responses of the events that decode. */
  function Responses(json: Json, data: seq<string>): seq<Response> {
    if data == [] then []
    else (if json.response(data[0]).Some? then [json.response(data[0]).value] else []) + Responses(json, data[1..])
  }

  /** The output is made of the responses before the first event that ends the stream, with that event's own unless
      it is the end marker; what comes after it does not matter. */
  lemma {:induction false} TakenUntilTheEnd(json: Json, before: seq<string>, e: string, after: seq<string>)
    requires Unended(json, before) && EndsStream(json, e)
    ensures Taken(json, before + [e] + after) ==
            Responses(json, before) + if e == "[DONE]" then [] else [json.response(e).value]
  {
    var data := before + [e] + after;
    if before == [] {
      assert data[0] == e;
    } else {
      assert !EndsStream(json, before[0]);
      assert data[0] == before[0] && data[1..] == before[1..] + [e] + after;
      TakenUntilTheEnd(json, before[1..], e, after);
    }
  }

  lemma {:induction false} TakenWithoutAnEnd(json: Json, data: seq<string>)
    requires Unended(json, data)
    ensures Taken(json, data) == Responses(json, data)
  {
    if data != [] {
      assert !EndsStream(json, data[0]);
      TakenWithoutAnEnd(json, data[1..]);
    }
  }

  // ---------------------------------------------------------------- what a response adds

  lemma {:induction false} PartsAppend(a: seq<Response>, b: seq<Response>)
    ensures Texts(a + b) == Texts(a) + Texts(b) && Deltas(a + b) == Deltas(a) + Deltas(b)
  {
    if b == [] {
      assert a + b == a;
    } else {
      var init, last := b[..|b| - 1], b[|b| - 1];
      PartsAppend(a, init);
      ResponsesSnoc(a + init, last);
      Regroup(a, init, [last]);
      LastOne(b);
      Regroup(Texts(a), Texts(init), TextOf(last));
      Regroup(Deltas(a), Deltas(init), DeltasOf(last));
    }
  }

  /** A response adds the content of its first choice, unless that is empty, wherever it stands ... */
  lemma EachResponseAddsItsText(a: seq<Response>, r: Response, b: seq<Response>)
    ensures Texts(a + [r] + b) ==
            Texts(a)
            + (if r.choices == [] || r.choices[0].content == "" then [] else [TextChunk(r.choices[0].content)])
            + Texts(b)
  {
    PartsAppend(a + [r], b);
    ResponsesSnoc(a, r);
  }

  /** ... the tool fragments of its first choice ... */
  lemma EachResponseAddsItsFragments(a: seq<Response>, r: Response, b: seq<Response>)
    ensures Deltas(a + [r] + b) == Deltas(a) + (if r.choices == [] then [] else r.choices[0].deltas) + Deltas(b)
  {
    PartsAppend(a + [r], b);
    ResponsesSnoc(a, r);
  }

  /** ... and its usage, if it has one, to input and output each on its own side. */
  lemma EachResponseAddsItsUsage(a: seq<Response>, r: Response, b: seq<Response>)
    ensures var w := if r.usage.Some? then r.usage.value else Usage(0, 0);
            && TotalUsage(a + [r] + b).input == TotalUsage(a).input + w.input + TotalUsage(b).input
            && TotalUsage(a + [r] + b).output == TotalUsage(a).output + w.output + TotalUsage(b).output
  {
    TotalUsageAppend(a + [r], b);
    ResponsesSnoc(a, r);
  }

  lemma NoResponsesSayNothing()
    ensures Texts([]) == [] && Deltas([]) == [] && TotalUsage([]) == Usage(0, 0)
  {
  }

  // ---------------------------------------------------------------- which call an index becomes

  ghost predicate HasFragment(ds: seq<ToolDelta>, i: int) {
    exists j :: 0 <= j < |ds| && ds[j].index == i
  }

  /** No fragment of call `i` after place `j` has an id. */
  ghost predicate NoIdAfter(ds: seq<ToolDelta>, i: int, j: int) {
    forall k :: 0 <= k < |ds| && j < k && ds[k].index == i ==> ds[k].id == ""
  }

  ghost predicate NoNameAfter(ds: seq<ToolDelta>, i: int, j: int) {
    forall k :: 0 <= k < |ds| && j < k && ds[k].index == i ==> ds[k].name == ""
  }

  /** The id is the last one that a fragment of call `i` has, or empty if none has one. */
  ghost predicate LastIdIs(ds: seq<ToolDelta>, i: int, id: string) {
    || (id == "" && NoIdAfter(ds, i, -1))
    || (id != "" && exists j :: 0 <= j < |ds| && ds[j].index == i && ds[j].id == id && NoIdAfter(ds, i, j))
  }

  ghost predicate LastNameIs(ds: seq<ToolDelta>, i: int, name: string) {
    || (name == "" && NoNameAfter(ds, i, -1))
    || (name != "" && exists j :: 0 <= j < |ds| && ds[j].index == i && ds[j].name == name && NoNameAfter(ds, i, j))
  }

  /** The arguments of the fragments of call `i`, one after the other. */
  function ArgumentsFor(ds: seq<ToolDelta>, i: int): string {
    if ds == [] then "" else (if ds[0].index == i then ds[0].arguments else "") + ArgumentsFor(ds[1..], i)
  }

  lemma {:induction false} ArgumentsForSnoc(ds: seq<ToolDelta>, d: ToolDelta, i: int)
    ensures ArgumentsFor(ds + [d], i) == ArgumentsFor(ds, i) + if d.index == i then d.arguments else ""
  {
    if ds == [] {
      assert ds + [d] == [d] && [d][1..] == [];
      assert ArgumentsFor([d], i) == (if d.index == i then d.arguments else "") + "";
    } else {
      ArgumentsForSnoc(ds[1..], d, i);
      assert (ds + [d])[1..] == ds[1..] + [d] && (ds + [d])[0] == ds[0];
    }
  }

  lemma IdSnoc(ds: seq<ToolDelta>, d: ToolDelta, i: int, id: string)
    requires LastIdIs(ds, i, id)
    ensures LastIdIs(ds + [d], i, if d.index == i && d.id != "" then d.id else id)
  {
    var all := ds + [d];
    assert all[|ds|] == d && forall j :: 0 <= j < |ds| ==> all[j] == ds[j];
    if d.index == i && d.id != "" {
      assert NoIdAfter(all, i, |ds|);
    } else if id == "" {
      assert NoIdAfter(all, i, -1);
    } else {
      var j :| 0 <= j < |ds| && ds[j].index == i && ds[j].id == id && NoIdAfter(ds, i, j);
      assert all[j].id == id && NoIdAfter(all, i, j);
    }
  }

  lemma NameSnoc(ds: seq<ToolDelta>, d: ToolDelta, i: int, name: string)
    requires LastNameIs(ds, i, name)
    ensures LastNameIs(ds + [d], i, if d.index == i && d.name != "" then d.name else name)
  {
    var all := ds + [d];
    assert all[|ds|] == d && forall j :: 0 <= j < |ds| ==> all[j] == ds[j];
    if d.index == i && d.name != "" {
      assert NoNameAfter(all, i, |ds|);
    } else if name == "" {
      assert NoNameAfter(all, i, -1);
    } else {
      var j :| 0 <= j < |ds| && ds[j].index == i && ds[j].name == name && NoNameAfter(ds, i, j);
      assert all[j].name == name && NoNameAfter(all, i, j);
    }
  }

  /** The call of index `i` is there exactly if a fragment has the index; it has the last id and name of its
      fragments and all their arguments. */
  lemma {:induction false} CallIsOfItsFragments(ds: seq<ToolDelta>, i: int)
    ensures var fs := Fragments(ds, i);
            && (fs != [] <==> HasFragment(ds, i))
            && LastIdIs(ds, i, Assembled(fs).id) && LastNameIs(ds, i, Assembled(fs).name)
            && Assembled(fs).args == ArgumentsFor(ds, i)
  {
    if ds != [] {
      var init, d := ds[..|ds| - 1], ds[|ds| - 1];
      CallIsOfItsFragments(init, i);
      OneMoreFragment(init, d, i);
      LastOne(ds);
    }
  }

  lemma OneMoreFragment(ds: seq<ToolDelta>, d: ToolDelta, i: int)
    requires var fs := Fragments(ds, i);
             && (fs != [] <==> HasFragment(ds, i))
             && LastIdIs(ds, i, Assembled(fs).id) && LastNameIs(ds, i, Assembled(fs).name)
             && Assembled(fs).args == ArgumentsFor(ds, i)
    ensures var fs := Fragments(ds + [d], i);
            && (fs != [] <==> HasFragment(ds + [d], i))
            && LastIdIs(ds + [d], i, Assembled(fs).id) && LastNameIs(ds + [d], i, Assembled(fs).name)
            && Assembled(fs).args == ArgumentsFor(ds + [d], i)
  {
    var all, fs := ds + [d], Fragments(ds, i);
    assert all[..|ds|] == ds && all[|ds|] == d && forall j :: 0 <= j < |ds| ==> all[j] == ds[j];
    IdSnoc(ds, d, i, Assembled(fs).id);
    NameSnoc(ds, d, i, Assembled(fs).name);
    ArgumentsForSnoc(ds, d, i);
    AssembledSnoc(fs, d);
    assert d.index != i ==> Fragments(all, i) == fs;
  }
}
