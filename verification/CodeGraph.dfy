/** The code-graph index (internal/codegraph/graph.go): two tables, rewritten file by file inside
    transactions. What the parser finds in a file, which row an unordered `LIMIT 1` lookup returns and
    which statement fails are inputs. */
module CodeGraph {
  import opened Common

  datatype Symbol = Symbol(name: string, kind: string, file: string, line: int, package: string)

  datatype Edge = Edge(from: int, to: int, relation: string)

  /** What parseGoFile finds; the file of a symbol is set when it is stored. */
  datatype ParsedEdge = ParsedEdge(from: string, to: string, relation: string)

  type Rows = map<int, Symbol>

  /** `last` is the AUTOINCREMENT counter of the symbols table. */
  datatype Tables = Tables(symbols: Rows, edges: seq<Edge>, last: int)

  /** One indexing of a file: the parse and the lookups by name that it makes. */
  datatype Parse = Parse(file: string, symbols: seq<Symbol>, edges: seq<ParsedEdge>,
                         find: (Rows, string) -> Option<int>)

  /** A lookup may find nothing, but what it finds is a row with the name asked for. */
  ghost predicate Sound(p: Parse) {
    forall rows, name :: Found(rows, name, p.find(rows, name))
  }

  predicate Found(rows: Rows, name: string, answer: Option<int>) {
    answer.Some? ==> answer.value in rows && rows[answer.value].name == name
  }

  // ---------------------------------------------------------------- statements

  predicate InFile(rows: Rows, file: string, id: int) {
    id in rows && rows[id].file == file
  }

  predicate Touches(rows: Rows, file: string, e: Edge) {
    InFile(rows, file, e.from) || InFile(rows, file, e.to)
  }

  function NotTouching(rows: Rows, file: string, es: seq<Edge>): seq<Edge> {
    if es == [] then []
    else NotTouching(rows, file, es[..|es| - 1]) + if Touches(rows, file, es[|es| - 1]) then [] else [es[|es| - 1]]
  }

  function DeleteEdges(t: Tables, file: string): Tables {
    t.(edges := NotTouching(t.symbols, file, t.edges))
  }

  function Elsewhere(rows: Rows, file: string): Rows {
    map id | id in rows && rows[id].file != file :: rows[id]
  }

  function DeleteSymbols(t: Tables, file: string): Tables {
    t.(symbols := Elsewhere(t.symbols, file))
  }

  function InsertSymbol(t: Tables, file: string, s: Symbol): Tables {
    t.(symbols := t.symbols[t.last + 1 := s.(file := file)], last := t.last + 1)
  }

  function InsertSymbols(t: Tables, file: string, ss: seq<Symbol>): Tables {
    if ss == [] then t else InsertSymbol(InsertSymbols(t, file, ss[..|ss| - 1]), file, ss[|ss| - 1])
  }

  /** The ids by name, as the inserts assign them after `last`. */
  function Names(last: int, ss: seq<Symbol>): map<string, int> {
    if ss == [] then map[] else Names(last, ss[..|ss| - 1])[ss[|ss| - 1].name := last + |ss|]
  }

  /** A source must be in the file itself, a target in the file or anywhere in the tables. */
  function Resolve(p: Parse, names: map<string, int>, rows: Rows, e: ParsedEdge): Option<Edge> {
    if e.from !in names then None
    else if e.to in names then Some(Edge(names[e.from], names[e.to], e.relation))
    else match p.find(rows, e.to)
      case None => None
      case Some(id) => Some(Edge(names[e.from], id, e.relation))
  }

  function Resolved(p: Parse, names: map<string, int>, rows: Rows, es: seq<ParsedEdge>): seq<Edge> {
    if es == [] then []
    else
      Resolved(p, names, rows, es[..|es| - 1]) +
      match Resolve(p, names, rows, es[|es| - 1])
      case None => []
      case Some(e) => [e]
  }

  // ---------------------------------------------------------------- the states inside a transaction

  function Cleared(t: Tables, p: Parse): Tables {
    DeleteSymbols(DeleteEdges(t, p.file), p.file)
  }

  function WithSymbols(t: Tables, p: Parse, k: nat): Tables
    requires k <= |p.symbols|
  {
    InsertSymbols(Cleared(t, p), p.file, p.symbols[..k])
  }

  function WithEdges(t: Tables, p: Parse, k: nat): Tables
    requires k <= |p.edges|
  {
    var u := WithSymbols(t, p, |p.symbols|);
    u.(edges := u.edges + Resolved(p, Names(t.last, p.symbols), u.symbols, p.edges[..k]))
  }

  function Indexed(t: Tables, p: Parse): Tables {
    WithEdges(t, p, |p.edges|)
  }

  function Inserted(t: Tables, p: Parse): seq<Edge> {
    Resolved(p, Names(t.last, p.symbols), WithSymbols(t, p, |p.symbols|).symbols, p.edges)
  }

  ghost predicate Stage(t: Tables, p: Parse, s: Tables) {
    || s == t
    || s == DeleteEdges(t, p.file)
    || (exists k: nat :: k <= |p.symbols| && s == WithSymbols(t, p, k))
    || (exists k: nat :: k <= |p.edges| && s == WithEdges(t, p, k))
  }

  // ---------------------------------------------------------------- edges join live symbols

  predicate Live(rows: Rows, e: Edge) {
    e.from in rows && e.to in rows
  }

  ghost predicate AllLive(rows: Rows, es: seq<Edge>) {
    forall i :: 0 <= i < |es| ==> Live(rows, es[i])
  }

  ghost predicate Numbered(t: Tables) {
    0 <= t.last && forall id :: id in t.symbols ==> 1 <= id <= t.last
  }

  ghost predicate Inv(t: Tables) {
    AllLive(t.symbols, t.edges) && Numbered(t)
  }

  lemma {:induction false} KeptEdgesLive(rows: Rows, file: string, es: seq<Edge>)
    requires AllLive(rows, es)
    ensures AllLive(Elsewhere(rows, file), NotTouching(rows, file, es))
    ensures AllLive(rows, NotTouching(rows, file, es))
  {
    if es != [] {
      KeptEdgesLive(rows, file, es[..|es| - 1]);
    }
  }

  lemma SymbolsSnoc(t: Tables, file: string, ss: seq<Symbol>, k: nat)
    requires k < |ss|
    ensures InsertSymbols(t, file, ss[..k + 1]) == InsertSymbol(InsertSymbols(t, file, ss[..k]), file, ss[k])
  {
    assert ss[..k + 1][..k] == ss[..k];
  }

  /** The rows of a file after its symbols are stored: numbered from `last + 1` in order, beside all others. */
  lemma {:induction false} SymbolsStored(t: Tables, file: string, ss: seq<Symbol>)
    requires Numbered(t)
    ensures var u := InsertSymbols(t, file, ss);
            && u.last == t.last + |ss| && u.edges == t.edges && Numbered(u)
            && (forall i :: t.last < i <= u.last ==>
                  i in u.symbols && u.symbols[i] == ss[i - t.last - 1].(file := file))
            && (forall i :: i <= t.last ==> (i in u.symbols <==> i in t.symbols))
            && (forall i :: i <= t.last && i in t.symbols ==> u.symbols[i] == t.symbols[i])
  {
    if ss != [] {
      var n := |ss| - 1;
      SymbolsStored(t, file, ss[..n]);
    }
  }

  lemma WithSymbolsInv(t: Tables, p: Parse, k: nat)
    requires Inv(t) && k <= |p.symbols|
    ensures Inv(WithSymbols(t, p, k))
  {
    KeptEdgesLive(t.symbols, p.file, t.edges);
    SymbolsStored(Cleared(t, p), p.file, p.symbols[..k]);
  }

  /** The id under a name is that of the file's last symbol so named. */
  ghost predicate LastNamed(ss: seq<Symbol>, name: string, i: nat) {
    i < |ss| && ss[i].name == name && forall j :: i < j < |ss| ==> ss[j].name != name
  }

  lemma {:induction false} NamesAreLast(last: int, ss: seq<Symbol>, name: string) returns (i: nat)
    ensures name in Names(last, ss) ==> LastNamed(ss, name, i) && Names(last, ss)[name] == last + 1 + i
    ensures name !in Names(last, ss) ==> forall j :: 0 <= j < |ss| ==> ss[j].name != name
  {
    i := 0;
    if ss != [] {
      var n := |ss| - 1;
      i := NamesAreLast(last, ss[..n], name);
      if ss[n].name == name {
        i := n;
      } else {
        assert forall j :: 0 <= j < n ==> ss[..n][j] == ss[j];
      }
    }
  }

  /** What a resolved edge joins: the file's last symbol of the source name, with the file's last symbol of
      the target name or, only if the file has none, a symbol of another file. */
  ghost predicate Joins(t: Tables, p: Parse, e: ParsedEdge, edge: Edge) {
    && edge.relation == e.relation
    && (exists i: nat :: LastNamed(p.symbols, e.from, i) && edge.from == t.last + 1 + i)
    && ((exists j: nat :: LastNamed(p.symbols, e.to, j) && edge.to == t.last + 1 + j)
        || (&& (forall j :: 0 <= j < |p.symbols| ==> p.symbols[j].name != e.to)
            && edge.to in Elsewhere(t.symbols, p.file) && t.symbols[edge.to].name == e.to))
  }

  lemma ResolveJoins(t: Tables, p: Parse, e: ParsedEdge)
    requires Numbered(t) && Sound(p)
    ensures var edge := Resolve(p, Names(t.last, p.symbols), WithSymbols(t, p, |p.symbols|).symbols, e);
            edge.Some? ==> Joins(t, p, e, edge.value) && Live(WithSymbols(t, p, |p.symbols|).symbols, edge.value)
  {
    var names, u := Names(t.last, p.symbols), WithSymbols(t, p, |p.symbols|);
    assert p.symbols[..|p.symbols|] == p.symbols;
    SymbolsStored(Cleared(t, p), p.file, p.symbols);
    var i := NamesAreLast(t.last, p.symbols, e.from);
    var j := NamesAreLast(t.last, p.symbols, e.to);
    assert Found(u.symbols, e.to, p.find(u.symbols, e.to));
  }

  lemma {:induction false} ResolvedLive(t: Tables, p: Parse, es: seq<ParsedEdge>)
    requires Numbered(t) && Sound(p)
    ensures AllLive(WithSymbols(t, p, |p.symbols|).symbols,
                    Resolved(p, Names(t.last, p.symbols), WithSymbols(t, p, |p.symbols|).symbols, es))
  {
    if es != [] {
      ResolvedLive(t, p, es[..|es| - 1]);
      ResolveJoins(t, p, es[|es| - 1]);
    }
  }

  lemma WithEdgesInv(t: Tables, p: Parse, k: nat)
    requires Inv(t) && Sound(p) && k <= |p.edges|
    ensures Inv(WithEdges(t, p, k))
  {
    WithSymbolsInv(t, p, |p.symbols|);
    ResolvedLive(t, p, p.edges[..k]);
  }

  /** Inside a transaction too, after every statement, edges join live symbols (so no foreign key is ever
      violated) and ids are fresh. */
  lemma EveryStageIsSound(t: Tables, p: Parse, s: Tables)
    requires Inv(t) && Sound(p) && Stage(t, p, s)
    ensures Inv(s)
  {
    KeptEdgesLive(t.symbols, p.file, t.edges);
    forall k: nat | k <= |p.symbols| ensures Inv(WithSymbols(t, p, k)) {
      WithSymbolsInv(t, p, k);
    }
    forall k: nat | k <= |p.edges| ensures Inv(WithEdges(t, p, k)) {
      WithEdgesInv(t, p, k);
    }
  }

  // ---------------------------------------------------------------- one indexing

  /** What happens to one id: rows of other files stay, those of the file are the symbols of the parse under
      the ids after the last one. */
  ghost predicate RowAfter(t: Tables, p: Parse, u: Tables, id: int) {
    && u.last == t.last + |p.symbols|
    && (id in u.symbols <==> id in Elsewhere(t.symbols, p.file) || t.last < id <= u.last)
    && (id in Elsewhere(t.symbols, p.file) ==> u.symbols[id] == t.symbols[id])
    && (t.last < id <= u.last ==> u.symbols[id] == p.symbols[id - t.last - 1].(file := p.file))
  }

  /** Symbols of other files, and edges that touch no symbol of the file, stay as they were; the file has
      exactly the symbols of the parse, under new ids. */
  lemma IndexedRows(t: Tables, p: Parse, id: int)
    requires Inv(t)
    ensures RowAfter(t, p, Indexed(t, p), id)
    ensures Indexed(t, p).edges == NotTouching(t.symbols, p.file, t.edges) + Inserted(t, p)
  {
    assert p.symbols[..|p.symbols|] == p.symbols && p.edges[..|p.edges|] == p.edges;
    SymbolsStored(Cleared(t, p), p.file, p.symbols);
  }

  lemma {:induction false} InsertedEdge(t: Tables, p: Parse, es: seq<ParsedEdge>, i: nat)
    requires Numbered(t) && Sound(p)
    requires i < |Resolved(p, Names(t.last, p.symbols), WithSymbols(t, p, |p.symbols|).symbols, es)|
    ensures var edge := Resolved(p, Names(t.last, p.symbols), WithSymbols(t, p, |p.symbols|).symbols, es)[i];
            exists e :: e in es && Joins(t, p, e, edge)
  {
    var names, rows := Names(t.last, p.symbols), WithSymbols(t, p, |p.symbols|).symbols;
    var n := |es| - 1;
    if i < |Resolved(p, names, rows, es[..n])| {
      InsertedEdge(t, p, es[..n], i);
      var e :| e in es[..n] && Joins(t, p, e, Resolved(p, names, rows, es[..n])[i]);
      assert e in es;
    } else {
      ResolveJoins(t, p, es[n]);
      assert es[n] in es;
    }
  }

  ghost predicate Named(ss: seq<Symbol>, name: string) {
    exists i :: 0 <= i < |ss| && ss[i].name == name
  }

  /** An edge resolves if and only if its source is in the file and its target is in the file or found
      elsewhere. */
  lemma ResolvesExactly(t: Tables, p: Parse, e: ParsedEdge)
    requires Numbered(t) && Sound(p)
    ensures var rows := WithSymbols(t, p, |p.symbols|).symbols;
            Resolve(p, Names(t.last, p.symbols), rows, e).Some? <==>
              Named(p.symbols, e.from) && (Named(p.symbols, e.to) || p.find(rows, e.to).Some?)
  {
    var i := NamesAreLast(t.last, p.symbols, e.from);
    var j := NamesAreLast(t.last, p.symbols, e.to);
  }

  lemma {:induction false} ResolvedIsInserted(p: Parse, names: map<string, int>, rows: Rows, es: seq<ParsedEdge>,
                                              k: nat)
    requires k < |es| && Resolve(p, names, rows, es[k]).Some?
    ensures Resolve(p, names, rows, es[k]).value in Resolved(p, names, rows, es)
  {
    if k < |es| - 1 {
      ResolvedIsInserted(p, names, rows, es[..|es| - 1], k);
    }
  }

  /** Every parsed edge that resolves is in the table afterwards, from the file's last symbol of the source
      name. */
  lemma ResolvableIsInserted(t: Tables, p: Parse, k: nat) returns (edge: Edge)
    requires Inv(t) && Sound(p) && k < |p.edges| && Named(p.symbols, p.edges[k].from)
    requires Named(p.symbols, p.edges[k].to) || p.find(WithSymbols(t, p, |p.symbols|).symbols, p.edges[k].to).Some?
    ensures edge in Indexed(t, p).edges && Joins(t, p, p.edges[k], edge)
  {
    var names, rows := Names(t.last, p.symbols), WithSymbols(t, p, |p.symbols|).symbols;
    ResolvesExactly(t, p, p.edges[k]);
    ResolveJoins(t, p, p.edges[k]);
    edge := Resolve(p, names, rows, p.edges[k]).value;
    ResolvedIsInserted(p, names, rows, p.edges, k);
    IndexedRows(t, p, 0);
    assert edge in Inserted(t, p);
  }

  /** The edges inserted, in the order of the parse: those at the places `at`, which are those of all that
      resolve. */
  ghost predicate InsertedAt(t: Tables, p: Parse, es: seq<ParsedEdge>, inserted: seq<Edge>, at: seq<int>) {
    && |at| == |inserted|
    && (forall i :: 0 <= i < |at| ==> 0 <= at[i] < |es| && Joins(t, p, es[at[i]], inserted[i]))
    && (forall i, j :: 0 <= i < j < |at| ==> at[i] < at[j])
    && (forall k :: 0 <= k < |es| ==> (k in at <==> Resolvable(t, p, es[k])))
  }

  ghost predicate Resolvable(t: Tables, p: Parse, e: ParsedEdge) {
    && Named(p.symbols, e.from)
    && (Named(p.symbols, e.to) || p.find(WithSymbols(t, p, |p.symbols|).symbols, e.to).Some?)
  }

  lemma InsertedAtSnoc(t: Tables, p: Parse, es: seq<ParsedEdge>, e: ParsedEdge, inserted: seq<Edge>, at: seq<int>)
    requires InsertedAt(t, p, es, inserted, at)
    ensures !Resolvable(t, p, e) ==> InsertedAt(t, p, es + [e], inserted, at)
    ensures forall edge :: Resolvable(t, p, e) && Joins(t, p, e, edge) ==>
              InsertedAt(t, p, es + [e], inserted + [edge], at + [|es|])
  {
    assert forall k :: 0 <= k < |es| ==> (es + [e])[k] == es[k];
  }

  /** One edge for each that resolves, in the order of the parse. */
  lemma {:induction false} InsertedInOrder(t: Tables, p: Parse, es: seq<ParsedEdge>) returns (at: seq<int>)
    requires Numbered(t) && Sound(p)
    ensures InsertedAt(t, p, es, Resolved(p, Names(t.last, p.symbols), WithSymbols(t, p, |p.symbols|).symbols, es), at)
  {
    at := [];
    if es != [] {
      var init, e := es[..|es| - 1], es[|es| - 1];
      at := InsertedInOrder(t, p, init);
      var names, rows := Names(t.last, p.symbols), WithSymbols(t, p, |p.symbols|).symbols;
      InsertedAtSnoc(t, p, init, e, Resolved(p, names, rows, init), at);
      ResolvesExactly(t, p, e);
      ResolveJoins(t, p, e);
      LastOne(es);
      if Resolve(p, names, rows, e).Some? {
        at := at + [|init|];
      } else {
        assert Resolved(p, names, rows, es) == Resolved(p, names, rows, init);
      }
    }
  }

  /** The lookup finds a row wherever there is one. */
  ghost predicate FindsAll(p: Parse) {
    forall rows: Rows, name: string, id: int :: id in rows && rows[id].name == name ==> Finds(p, rows, name, id)
  }

  predicate Finds(p: Parse, rows: Rows, name: string, id: int) {
    p.find(rows, name).Some?
  }

  /** Indexing the target's file loses the edge, indexing the source's file after it puts one back, to a symbol
      of the target name. */
  lemma IndexingTheSourceRestoresTheEdge(t: Tables, callee: Parse, caller: Parse, k: nat, i: nat) returns (edge: Edge)
    requires Inv(t) && Sound(callee) && Sound(caller) && FindsAll(caller) && callee.file != caller.file
    requires k < |caller.edges| && Named(caller.symbols, caller.edges[k].from)
    requires i < |callee.symbols| && callee.symbols[i].name == caller.edges[k].to
    ensures var u := Indexed(t, callee);
            edge in Indexed(u, caller).edges && Joins(u, caller, caller.edges[k], edge)
  {
    var u, id := Indexed(t, callee), t.last + 1 + i;
    WithEdgesInv(t, callee, |callee.edges|);
    IndexedRows(t, callee, id);
    IndexedRows(u, caller, id);
    var rows := WithSymbols(u, caller, |caller.symbols|).symbols;
    assert id in rows && rows[id].name == caller.edges[k].to;
    assert Finds(caller, rows, caller.edges[k].to, id);
    edge := ResolvableIsInserted(u, caller, k);
  }

  /** After a file is indexed, whatever edge still reaches one of its symbols starts in the file: edges that
      other files had into it are gone until those files are indexed again. */
  lemma OnlyOwnEdgesReachTheFile(t: Tables, p: Parse, i: nat)
    requires Inv(t) && Sound(p) && i < |Indexed(t, p).edges|
    ensures var u := Indexed(t, p);
            Touches(u.symbols, p.file, u.edges[i]) ==> InFile(u.symbols, p.file, u.edges[i].from)
  {
    var kept, u := NotTouching(t.symbols, p.file, t.edges), Indexed(t, p);
    var edge := u.edges[i];
    IndexedRows(t, p, edge.from);
    IndexedRows(t, p, edge.to);
    if i < |kept| {
      KeptEdgesLive(t.symbols, p.file, t.edges);
      assert Live(Elsewhere(t.symbols, p.file), kept[i]);
    } else {
      InsertedEdge(t, p, p.edges, i - |kept|);
    }
  }

  // ---------------------------------------------------------------- any number of indexings

  function Empty(): Tables {
    Tables(map[], [], 0)
  }

  function Run(ps: seq<Parse>): Tables {
    if ps == [] then Empty() else Indexed(Run(ps[..|ps| - 1]), ps[|ps| - 1])
  }

  ghost predicate AllSound(ps: seq<Parse>) {
    forall i :: 0 <= i < |ps| ==> Sound(ps[i])
  }

  lemma {:induction false} RunKeepsInv(ps: seq<Parse>)
    requires AllSound(ps)
    ensures Inv(Run(ps))
  {
    if ps != [] {
      RunKeepsInv(ps[..|ps| - 1]);
      WithEdgesInv(Run(ps[..|ps| - 1]), ps[|ps| - 1], |ps[|ps| - 1].edges|);
    }
  }

  /** How many symbols the indexings have stored in all. */
  function Stored(ps: seq<Parse>): nat {
    if ps == [] then 0 else Stored(ps[..|ps| - 1]) + |ps[|ps| - 1].symbols|
  }

  /** Symbol `i` of indexing `k`, which was the last one of its file, was given this id. */
  ghost predicate Numbers(ps: seq<Parse>, k: nat, i: nat, id: int) {
    && k < |ps| && i < |ps[k].symbols| && id == Stored(ps[..k]) + 1 + i
    && forall j :: k < j < |ps| ==> ps[j].file != ps[k].file
  }

  lemma NumbersBefore(ps: seq<Parse>, p: Parse, k: nat, i: nat, id: int)
    requires k < |ps|
    ensures Numbers(ps + [p], k, i, id) <==> Numbers(ps, k, i, id) && ps[k].file != p.file
  {
    var all := ps + [p];
    assert all[..k] == ps[..k] && all[|ps|] == p;
    assert forall j :: 0 <= j < |ps| ==> all[j] == ps[j];
  }

  lemma NumbersNow(ps: seq<Parse>, p: Parse, i: nat, id: int)
    ensures Numbers(ps + [p], |ps|, i, id) <==> i < |p.symbols| && id == Stored(ps) + 1 + i
  {
    assert (ps + [p])[..|ps|] == ps;
  }

  lemma {:induction false} RunLast(ps: seq<Parse>)
    requires AllSound(ps)
    ensures Run(ps).last == Stored(ps)
  {
    if ps != [] {
      RunLast(ps[..|ps| - 1]);
      RunKeepsInv(ps[..|ps| - 1]);
      IndexedRows(Run(ps[..|ps| - 1]), ps[|ps| - 1], 0);
    }
  }

  /** One indexing, seen from a single id. */
  lemma RunRows(ps: seq<Parse>, p: Parse, id: int)
    requires AllSound(ps + [p])
    ensures AllSound(ps) && Inv(Run(ps)) && Run(ps).last == Stored(ps)
    ensures RowAfter(Run(ps), p, Run(ps + [p]), id)
  {
    assert forall i :: 0 <= i < |ps| ==> ps[i] == (ps + [p])[i];
    RunKeepsInv(ps);
    RunLast(ps);
    RunSnoc(ps, p);
    IndexedRows(Run(ps), p, id);
  }

  /** The tables hold, of every file, exactly the symbols of its latest indexing, under ids that tell which
      indexing and which symbol of it they are: what the latest indexing of a file stored is there ... */
  lemma {:induction false} LatestParseIsStored(ps: seq<Parse>, k: nat, i: nat, id: int)
    requires AllSound(ps) && Numbers(ps, k, i, id)
    ensures id in Run(ps).symbols && Run(ps).symbols[id] == ps[k].symbols[i].(file := ps[k].file)
  {
    var n := |ps| - 1;
    assert ps == ps[..n] + [ps[n]];
    RunRows(ps[..n], ps[n], id);
    if k == n {
      NumbersNow(ps[..n], ps[n], i, id);
    } else {
      NumbersBefore(ps[..n], ps[n], k, i, id);
      LatestParseIsStored(ps[..n], k, i, id);
    }
  }

  /** ... and nothing else is. */
  lemma {:induction false} StoredIsLatestParse(ps: seq<Parse>, id: int) returns (k: nat, i: nat)
    requires AllSound(ps) && id in Run(ps).symbols
    ensures Numbers(ps, k, i, id) && Run(ps).symbols[id] == ps[k].symbols[i].(file := ps[k].file)
  {
    var n := |ps| - 1;
    assert ps == ps[..n] + [ps[n]];
    RunRows(ps[..n], ps[n], id);
    if Stored(ps[..n]) < id {
      k, i := n, id - Stored(ps[..n]) - 1;
      NumbersNow(ps[..n], ps[n], i, id);
    } else {
      k, i := StoredIsLatestParse(ps[..n], id);
      NumbersBefore(ps[..n], ps[n], k, i, id);
    }
  }

  // ---------------------------------------------------------------- edges lost by re-indexing

  /** Every edge that touches the file before it is indexed is gone afterwards, also those that other files
      have into it: ids are new, so no later edge is equal to it. */
  lemma OldEdgesAreGone(t: Tables, p: Parse, e: Edge)
    requires Inv(t) && Sound(p) && Touches(t.symbols, p.file, e)
    ensures e !in Indexed(t, p).edges
  {
    IndexedRows(t, p, e.from);
    IndexedRows(t, p, e.to);
    WithEdgesInv(t, p, |p.edges|);
    assert e in Indexed(t, p).edges ==> Live(Indexed(t, p).symbols, e);
  }

  /** Two files, of which `caller` calls a function of `callee`. */
  function Callee(find: (Rows, string) -> Option<int>): Parse {
    Parse("callee.go", [Symbol("target", "function", "", 1, "p")], [], find)
  }

  function Caller(find: (Rows, string) -> Option<int>): Parse {
    Parse("caller.go", [Symbol("source", "function", "", 1, "p")], [ParsedEdge("source", "target", "calls")], find)
  }

  predicate FirstIsTarget(rows: Rows) {
    1 in rows && rows[1].name == "target"
  }

  function FindFirst(rows: Rows, name: string): Option<int> {
    if name == "target" && FirstIsTarget(rows) then Some(1) else None
  }

  lemma CalleeIndexed()
    ensures Indexed(Empty(), Callee(FindFirst)) ==
            Tables(map[1 := Symbol("target", "function", "callee.go", 1, "p")], [], 1)
  {
    var p := Callee(FindFirst);
    var s := p.symbols[0];
    assert p.symbols[..0] == [] && p.symbols[..1] == p.symbols && p.edges[..0] == [];
    SymbolsSnoc(Cleared(Empty(), p), p.file, p.symbols, 0);
    assert Cleared(Empty(), p) == Empty();
    assert InsertSymbols(Empty(), p.file, []) == Empty();
    assert WithSymbols(Empty(), p, 1) == InsertSymbol(Empty(), p.file, s);
  }

  lemma CallerEdge(t: Tables)
    requires t == Tables(map[1 := Symbol("target", "function", "callee.go", 1, "p")], [], 1)
    ensures Indexed(t, Caller(FindFirst)).edges == [Edge(2, 1, "calls")]
    ensures InFile(Indexed(t, Caller(FindFirst)).symbols, "callee.go", 1)
  {
    var p := Caller(FindFirst);
    var s, e := p.symbols[0], p.edges[0];
    assert p.symbols[..0] == [] && p.symbols[..1] == p.symbols && p.edges[..0] == [] && p.edges[..1] == p.edges;
    SymbolsSnoc(Cleared(t, p), p.file, p.symbols, 0);
    assert Cleared(t, p).symbols == t.symbols;
    assert InsertSymbols(Cleared(t, p), p.file, []) == Cleared(t, p);
    var u := WithSymbols(t, p, 1);
    assert u == InsertSymbol(Cleared(t, p), p.file, s);
    assert Names(t.last, p.symbols) == map["source" := 2];
    assert Resolve(p, Names(t.last, p.symbols), u.symbols, e) == Some(Edge(2, 1, "calls"));
    assert Resolved(p, Names(t.last, p.symbols), u.symbols, p.edges[..0]) == [];
  }

  /** The edge of another file into a file is there until that file is indexed again. */
  lemma ReindexingLosesAnEdge() returns (ps: seq<Parse>)
    ensures AllSound(ps + [Callee(FindFirst)])
    ensures Run(ps).edges == [Edge(2, 1, "calls")] && Run(ps + [Callee(FindFirst)]).edges == []
  {
    var callee, caller := Callee(FindFirst), Caller(FindFirst);
    ps := [callee] + [caller];
    forall rows, name ensures Found(rows, name, FindFirst(rows, name)) {
    }
    assert Sound(callee) && Sound(caller);
    assert [callee][..0] == [] && ps[..1] == [callee];
    CalleeIndexed();
    assert Run([callee]) == Indexed(Empty(), callee);
    CallerEdge(Run([callee]));
    assert Run(ps) == Indexed(Run([callee]), caller);
    var t := Run(ps);
    RunKeepsInv(ps);
    RunSnoc(ps, callee);
    IndexedRows(t, callee, 1);
    OldEdgesAreGone(t, callee, Edge(2, 1, "calls"));
    assert NotTouching(t.symbols, callee.file, t.edges) == [] by {
      assert t.edges[..0] == [];
    }
    assert Inserted(t, callee) == [];
  }

  // ---------------------------------------------------------------- ids and edges over time

  lemma RunSnoc(ps: seq<Parse>, p: Parse)
    ensures Run(ps + [p]) == Indexed(Run(ps), p)
  {
    assert (ps + [p])[..|ps|] == ps;
  }

  /** However many indexings follow: an id that is still there stands for the same symbol, one that is gone
      never comes back. */
  lemma {:induction false} IdsAreNeverReused(ps: seq<Parse>, later: seq<Parse>, id: int)
    requires AllSound(ps + later) && id <= Run(ps).last
    ensures id <= Run(ps + later).last
    ensures id in Run(ps + later).symbols ==>
              id in Run(ps).symbols && Run(ps + later).symbols[id] == Run(ps).symbols[id]
  {
    if later == [] {
      assert ps + later == ps;
    } else {
      var n := |later| - 1;
      var so := ps + later[..n];
      assert ps + later == so + [later[n]];
      assert forall i :: 0 <= i < |so| ==> so[i] == (ps + later)[i];
      IdsAreNeverReused(ps, later[..n], id);
      RunKeepsInv(so);
      RunSnoc(so, later[n]);
      IndexedRows(Run(so), later[n], id);
    }
  }

  function LiveOnly(rows: Rows, es: seq<Edge>): seq<Edge> {
    if es == [] then []
    else LiveOnly(rows, es[..|es| - 1]) + if Live(rows, es[|es| - 1]) then [es[|es| - 1]] else []
  }

  lemma {:induction false} LiveOnlyAppend(rows: Rows, a: seq<Edge>, b: seq<Edge>)
    ensures LiveOnly(rows, a + b) == LiveOnly(rows, a) + LiveOnly(rows, b)
  {
    if b == [] {
      assert a + b == a;
    } else {
      assert (a + b)[..|a + b| - 1] == a + b[..|b| - 1];
      LiveOnlyAppend(rows, a, b[..|b| - 1]);
    }
  }

  lemma {:induction false} LiveOnlyAll(rows: Rows, es: seq<Edge>)
    requires AllLive(rows, es)
    ensures LiveOnly(rows, es) == es
  {
    if es != [] {
      LiveOnlyAll(rows, es[..|es| - 1]);
      assert es == es[..|es| - 1] + [es[|es| - 1]];
    }
  }

  /** Every edge that was ever inserted, in order. */
  function EverInserted(ps: seq<Parse>): seq<Edge> {
    if ps == [] then [] else EverInserted(ps[..|ps| - 1]) + Inserted(Run(ps[..|ps| - 1]), ps[|ps| - 1])
  }

  ghost predicate Within(es: seq<Edge>, last: int) {
    forall i :: 0 <= i < |es| ==> es[i].from <= last && es[i].to <= last
  }

  lemma {:induction false} DeletingIsDying(t: Tables, p: Parse, es: seq<Edge>)
    requires Inv(t) && Within(es, t.last)
    ensures NotTouching(t.symbols, p.file, LiveOnly(t.symbols, es)) == LiveOnly(Indexed(t, p).symbols, es)
  {
    if es != [] {
      var init, e := es[..|es| - 1], es[|es| - 1];
      DeletingIsDying(t, p, init);
      IndexedRows(t, p, e.from);
      IndexedRows(t, p, e.to);
      var kept := LiveOnly(t.symbols, init);
      assert Live(Indexed(t, p).symbols, e) <==> Live(t.symbols, e) && !Touches(t.symbols, p.file, e);
      if Live(t.symbols, e) {
        assert (kept + [e])[..|kept|] == kept;
      } else {
        assert LiveOnly(t.symbols, es) == kept;
      }
    }
  }

  lemma EdgesAfterIndexing(t: Tables, p: Parse, ever: seq<Edge>)
    requires Inv(t) && Sound(p) && t.edges == LiveOnly(t.symbols, ever) && Within(ever, t.last)
    ensures var u := Indexed(t, p);
            u.edges == LiveOnly(u.symbols, ever + Inserted(t, p)) && Within(ever + Inserted(t, p), u.last)
  {
    IndexedRows(t, p, 0);
    DeletingIsDying(t, p, ever);
    InsertedWithin(t, p);
    LiveOnlyAppend(Indexed(t, p).symbols, ever, Inserted(t, p));
    LiveOnlyAll(Indexed(t, p).symbols, Inserted(t, p));
  }

  /** The edges in the tables are those ever inserted whose two symbols are still there, in order: indexing
      loses no other edge, and repeats none. */
  lemma {:induction false} EdgesAreTheLiveOnes(ps: seq<Parse>)
    requires AllSound(ps)
    ensures Run(ps).edges == LiveOnly(Run(ps).symbols, EverInserted(ps))
    ensures Within(EverInserted(ps), Run(ps).last)
  {
    if ps != [] {
      var before := ps[..|ps| - 1];
      EdgesAreTheLiveOnes(before);
      RunKeepsInv(before);
      EdgesAfterIndexing(Run(before), ps[|ps| - 1], EverInserted(before));
    }
  }

  lemma InsertedWithin(t: Tables, p: Parse)
    requires Inv(t) && Sound(p)
    ensures AllLive(Indexed(t, p).symbols, Inserted(t, p)) && Within(Inserted(t, p), Indexed(t, p).last)
  {
    ResolvedLive(t, p, p.edges);
    assert p.edges[..|p.edges|] == p.edges;
    WithEdgesInv(t, p, |p.edges|);
  }

  // ---------------------------------------------------------------- the graph

  class Graph {
    var db: Tables
    ghost var indexed: seq<Parse>

    /** The database is what the indexings that committed make of an empty one. */
    ghost predicate Valid()
      reads this
    {
      AllSound(indexed) && db == Run(indexed)
    }

    constructor ()
      ensures Valid() && indexed == []
    {
      db := Empty();
      indexed := [];
    }

    /** `parsed` is None when the file does not parse; statement number `failAt` (the begin and the commit
        included) fails, if there are that many. The transaction works on `reached`; only the commit
        publishes it. */
    method IndexFile(parsed: Option<Parse>, failAt: nat) returns (ok: bool, ghost reached: Tables)
      requires Valid() && (parsed.Some? ==> Sound(parsed.value))
      modifies this
      ensures Valid()
      ensures ok ==> parsed.Some? && indexed == old(indexed) + [parsed.value] && reached == db
      ensures !ok ==> db == old(db) && indexed == old(indexed)
      ensures ok <==> parsed.Some? && failAt >= Statements(old(db), parsed.value)
      ensures parsed.Some? ==> Stage(old(db), parsed.value, reached) && Inv(reached)
    {
      ok, reached := false, db;
      RunKeepsInv(indexed);
      if parsed.None? {
        return;
      }
      var tx: Tables;
      ok, tx := Transaction(db, parsed.value, failAt);
      reached := tx;
      EveryStageIsSound(db, parsed.value, tx);
      if ok {
        RunSnoc(indexed, parsed.value);
        db := tx;
        indexed := indexed + [parsed.value];
      }
    }
  }

  /** Begin, two deletes, one insert per symbol and per resolved edge, commit. */
  function Statements(t: Tables, p: Parse): nat {
    4 + |p.symbols| + |Inserted(t, p)|
  }

  /** The statements of one transaction, up to the one that fails. */
  method Transaction(db: Tables, p: Parse, failAt: nat) returns (ok: bool, tx: Tables)
    ensures Stage(db, p, tx)
    ensures ok ==> tx == Indexed(db, p)
    ensures ok <==> failAt >= Statements(db, p)
  {
    tx := db;
    if failAt == 0 {
      return false, tx;
    }
    if failAt == 1 {
      return false, tx;
    }
    tx := DeleteEdges(tx, p.file);
    if failAt == 2 {
      return false, tx;
    }
    tx := DeleteSymbols(tx, p.file);
    var statement := 3;
    var nameToId: map<string, int> := map[];
    assert p.symbols[..0] == [];
    for i := 0 to |p.symbols|
      invariant tx == WithSymbols(db, p, i) && nameToId == Names(db.last, p.symbols[..i])
      invariant statement == 3 + i <= failAt
    {
      if failAt == statement {
        return false, tx;
      }
      SymbolsSnoc(Cleared(db, p), p.file, p.symbols, i);
      assert p.symbols[..i + 1][..i] == p.symbols[..i];
      LastIs(Cleared(db, p), p.file, p.symbols[..i]);
      tx := InsertSymbol(tx, p.file, p.symbols[i]);
      nameToId := nameToId[p.symbols[i].name := tx.last];
      statement := statement + 1;
    }
    assert p.symbols[..|p.symbols|] == p.symbols;
    ok, tx := EdgeStatements(db, p, tx, nameToId, failAt, statement);
  }

  lemma {:induction false} LastIs(t: Tables, file: string, ss: seq<Symbol>)
    ensures InsertSymbols(t, file, ss).last == t.last + |ss|
  {
    if ss != [] {
      LastIs(t, file, ss[..|ss| - 1]);
    }
  }

  method EdgeStatements(ghost db: Tables, p: Parse, start: Tables, names: map<string, int>, failAt: nat, next: nat)
    returns (ok: bool, tx: Tables)
    requires start == WithSymbols(db, p, |p.symbols|) && names == Names(db.last, p.symbols) && next <= failAt
    ensures Stage(db, p, tx)
    ensures ok ==> tx == Indexed(db, p)
    ensures ok <==> failAt > next + |Inserted(db, p)|
  {
    tx := start;
    var statement := next;
    ghost var rows := start.symbols;
    for i := 0 to |p.edges|
      invariant tx.symbols == start.symbols && tx == WithEdges(db, p, i)
      invariant statement == next + |Resolved(p, names, rows, p.edges[..i])| <= failAt
    {
      assert p.edges[..i + 1][..i] == p.edges[..i];
      var e := Resolve(p, names, tx.symbols, p.edges[i]);
      if e.Some? {
        if failAt == statement {
          assert |Resolved(p, names, rows, p.edges[..i + 1])| == |Resolved(p, names, rows, p.edges[..i])| + 1;
          ResolvedGrows(p, names, rows, p.edges, i + 1);
          return false, tx;
        }
        tx := tx.(edges := tx.edges + [e.value]);
        statement := statement + 1;
      }
    }
    assert p.edges[..|p.edges|] == p.edges;
    ok := failAt != statement;
  }

  lemma {:induction false} ResolvedGrows(p: Parse, names: map<string, int>, rows: Rows, es: seq<ParsedEdge>, i: nat)
    requires i <= |es|
    ensures |Resolved(p, names, rows, es[..i])| <= |Resolved(p, names, rows, es)|
  {
    if i == |es| {
      assert es[..i] == es;
    } else {
      assert es[..|es| - 1][..i] == es[..i];
      ResolvedGrows(p, names, rows, es[..|es| - 1], i);
    }
  }
}
