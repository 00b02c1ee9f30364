/** Layered settings (settings/storage_merge.go, settings/storage.go). The fields that Merge handles are
    listed by the rule it applies to them; the fields it does not mention are not part of the model. Maps are
    objects of their own, so that sharing between layers would show. */
module SettingsMerge {
  import opened Common

  /** A non-empty text overrides. */
  datatype TextName =
    | AgentDefault | ProvidersDefault
    | GitHubToken | GitHubOwner | GitLabToken | GitLabBaseUrl | WrikeToken | LinearToken | LinearTeam
    | JiraToken | JiraEmail | JiraBaseUrl
    | AzureToken | AzureBaseUrl | AzureOrganization | AzureProject | AzureRepository
    | GitBaseBranch | GitBranchPattern | GitCommitPrefix | GitCommitPattern | GitPrTitlePattern
    | GitBranchValidationPattern
    | SpecOutputPath | PlanOutputPath | ChangelogPath | ExternalReviewMode | ExternalReviewCommand | Preset

  /** A non-empty list overrides. */
  datatype ListName = AgentAllowed | PrRequiredSections | RequiredPhases | SensitivePaths | ReviewChecklist
    | DocRequirements

  /** A switch overrides when it is given, on or off. */
  datatype SwitchName =
    CreateBranch | AutoCommit | SignCommits | AllowPrComment | SaveInProject | CommitSpecs | UseWorktreeIsolation
    | HoldTheLine

  /** A positive number overrides. */
  datatype CountName = WorkersMax | MinSpecSections

  /** A flag can only be turned on. */
  datatype FlagName =
    | GitHubTicketComment | GitHubStatusSync | GitLabTicketComment | GitLabStatusSync
    | WrikeParentContext | WrikeSiblingContext | WrikeTicketComment
    | LinearParentContext | LinearSiblingContext | LinearTicketComment | LinearStatusSync
    | JiraTicketComment | JiraStatusSync | AzureTicketComment | AzureStatusSync
    | RequireSecurityScan | OnboardingDismissed

  datatype Field =
    | OfText(text: TextName)
    | OfList(list: ListName)
    | OfSwitch(switch: SwitchName)
    | OfCount(count: CountName)
    | OfFlag(flag: FlagName)

  /** Maps are merged key by key. */
  datatype TableName =
    | GitHubStatusMapping | GitLabStatusMapping | LinearStatusMapping | JiraStatusMapping | AzureStatusMapping
    | ApprovalRequired | PhaseGuardrails | Hooks | CustomAgents

  datatype Scalar = Text(text: string) | List(items: seq<string>) | Switch(on: Option<bool>) | Count(n: int)
    | Flag(raised: bool)

  type Entries = map<string, string>

  /** A scalar that is missing has its zero value, a table that is missing is a nil map. */
  datatype Layer = Layer(scalars: map<Field, Scalar>, tables: map<TableName, Entries>)

  function Zero(f: Field): Scalar {
    match f
    case OfText(_) => Text("")
    case OfList(_) => List([])
    case OfSwitch(_) => Switch(None)
    case OfCount(_) => Count(0)
    case OfFlag(_) => Flag(false)
  }

  predicate OfKind(f: Field, v: Scalar) {
    match f
    case OfText(_) => v.Text?
    case OfList(_) => v.List?
    case OfSwitch(_) => v.Switch?
    case OfCount(_) => v.Count?
    case OfFlag(_) => v.Flag?
  }

  ghost predicate WellKinded(c: Layer) {
    forall f :: f in c.scalars ==> OfKind(f, c.scalars[f])
  }

  function ValueAt(scalars: map<Field, Scalar>, f: Field): Scalar {
    if f in scalars then scalars[f] else Zero(f)
  }

  function ScalarAt(c: Layer, f: Field): Scalar {
    ValueAt(c.scalars, f)
  }

  function EntriesAt(tables: map<TableName, Entries>, t: TableName): Entries {
    if t in tables then tables[t] else map[]
  }

  function TableAt(c: Layer, t: TableName): Entries {
    EntriesAt(c.tables, t)
  }

  predicate IsSet(v: Scalar) {
    match v
    case Text(s) => s != ""
    case List(items) => items != []
    case Switch(on) => on.Some?
    case Count(n) => n > 0
    case Flag(raised) => raised
  }

  // ---------------------------------------------------------------- the override algebra

  function Over(dst: Scalar, src: Scalar): Scalar {
    if IsSet(src) then src else dst
  }

  function MergedScalars(a: map<Field, Scalar>, b: map<Field, Scalar>): map<Field, Scalar> {
    map f | f in a.Keys + b.Keys :: Over(ValueAt(a, f), ValueAt(b, f))
  }

  /** An empty map of the source is not copied, so it does not make one in the destination. */
  function MergedTables(a: map<TableName, Entries>, b: map<TableName, Entries>): map<TableName, Entries> {
    map t | t in a.Keys + b.Keys && (t in a || b[t] != map[]) :: EntriesAt(a, t) + EntriesAt(b, t)
  }

  function Merged(dst: Layer, src: Layer): Layer {
    Layer(MergedScalars(dst.scalars, src.scalars), MergedTables(dst.tables, src.tables))
  }

  function Empty(): Layer {
    Layer(map[], map[])
  }

  lemma MergedAt(a: Layer, b: Layer, f: Field, t: TableName)
    ensures ScalarAt(Merged(a, b), f) == Over(ScalarAt(a, f), ScalarAt(b, f))
    ensures f in Merged(a, b).scalars <==> f in a.scalars || f in b.scalars
    ensures TableAt(Merged(a, b), t) == TableAt(a, t) + TableAt(b, t)
    ensures t in Merged(a, b).tables <==> t in a.tables || TableAt(b, t) != map[]
  {
  }

  lemma OverlayIsAssociative(a: Entries, b: Entries, c: Entries)
    ensures (a + b) + c == a + (b + c)
    ensures a + b == map[] <==> a == map[] && b == map[]
  {
    if a + b == map[] {
      forall k ensures k !in a && k !in b {
        assert k !in a + b;
      }
    }
  }

  ghost predicate ScalarAgrees(l: Layer, r: Layer, f: Field) {
    ScalarAt(l, f) == ScalarAt(r, f) && (f in l.scalars <==> f in r.scalars)
  }

  ghost predicate TableAgrees(l: Layer, r: Layer, t: TableName) {
    TableAt(l, t) == TableAt(r, t) && (t in l.tables <==> t in r.tables)
  }

  lemma SameLayer(l: Layer, r: Layer)
    requires (forall f :: ScalarAgrees(l, r, f)) && forall t :: TableAgrees(l, r, t)
    ensures l == r
  {
    assert forall f :: ScalarAgrees(l, r, f) ==> (f in l.scalars <==> f in r.scalars);
    forall f | f in l.scalars ensures f in r.scalars && l.scalars[f] == r.scalars[f] {
      assert ScalarAgrees(l, r, f);
    }
    assert l.scalars == r.scalars;
    assert forall t :: TableAgrees(l, r, t) ==> (t in l.tables <==> t in r.tables);
    forall t | t in l.tables ensures t in r.tables && l.tables[t] == r.tables[t] {
      assert TableAgrees(l, r, t);
    }
    assert l.tables == r.tables;
  }

  lemma MergeIsAssociative(a: Layer, b: Layer, c: Layer)
    ensures Merged(Merged(a, b), c) == Merged(a, Merged(b, c))
  {
    var l, r := Merged(Merged(a, b), c), Merged(a, Merged(b, c));
    forall f ensures ScalarAgrees(l, r, f) {
      AssociativeAt(a, b, c, f, Hooks);
    }
    forall t ensures TableAgrees(l, r, t) {
      AssociativeAt(a, b, c, OfText(Preset), t);
    }
    SameLayer(l, r);
  }

  lemma AssociativeAt(a: Layer, b: Layer, c: Layer, f: Field, t: TableName)
    ensures ScalarAgrees(Merged(Merged(a, b), c), Merged(a, Merged(b, c)), f)
    ensures TableAgrees(Merged(Merged(a, b), c), Merged(a, Merged(b, c)), t)
  {
    MergedAt(a, b, f, t);
    MergedAt(b, c, f, t);
    MergedAt(Merged(a, b), c, f, t);
    MergedAt(a, Merged(b, c), f, t);
    OverlayIsAssociative(TableAt(a, t), TableAt(b, t), TableAt(c, t));
    OverlayIsAssociative(TableAt(b, t), TableAt(c, t), map[]);
  }

  lemma EmptyIsRightIdentity(a: Layer)
    ensures Merged(a, Empty()) == a
  {
    assert Merged(a, Empty()).scalars == a.scalars;
    forall t | t in a.tables ensures a.tables[t] + map[] == a.tables[t] {
    }
    assert Merged(a, Empty()).tables == a.tables;
  }

  /** Settings survive being merged into empty ones exactly when no number in them is negative and no map is
      there but empty. */
  lemma LeftIdentityExactly(a: Layer)
    requires WellKinded(a)
    ensures Merged(Empty(), a) == a <==>
              (forall f :: f in a.scalars ==> !Negative(a.scalars[f]))
              && forall t :: t in a.tables ==> a.tables[t] != map[]
  {
    LeftScalars(a);
    LeftTables(a);
  }

  predicate Negative(v: Scalar) {
    v.Count? && v.n < 0
  }

  lemma LeftScalars(a: Layer)
    requires WellKinded(a)
    ensures MergedScalars(map[], a.scalars) == a.scalars <==> forall f :: f in a.scalars ==> !Negative(a.scalars[f])
  {
    var m := MergedScalars(map[], a.scalars);
    assert m.Keys == a.scalars.Keys;
    forall f | f in a.scalars ensures m[f] == a.scalars[f] <==> !Negative(a.scalars[f]) {
      assert OfKind(f, a.scalars[f]);
    }
  }

  lemma LeftTables(a: Layer)
    ensures MergedTables(map[], a.tables) == a.tables <==> forall t :: t in a.tables ==> a.tables[t] != map[]
  {
    var m := MergedTables(map[], a.tables);
    forall t ensures t in m <==> t in a.tables && a.tables[t] != map[] {
    }
    forall t | t in m ensures m[t] == a.tables[t] {
      assert map[] + a.tables[t] == a.tables[t];
    }
  }

  // ---------------------------------------------------------------- layers

  /** Later layers over earlier ones, all over the base. */
  function Layered(base: Layer, layers: seq<Layer>): Layer {
    if layers == [] then base else Merged(Layered(base, layers[..|layers| - 1]), layers[|layers| - 1])
  }

  /** The value of a field: that of the last layer that sets it, or else that of the base. */
  lemma {:induction false} LastLayerThatSetsItWins(base: Layer, layers: seq<Layer>, f: Field) returns (i: int)
    ensures -1 <= i < |layers| && (i >= 0 ==> IsSet(ScalarAt(layers[i], f)))
    ensures forall j :: i < j < |layers| ==> !IsSet(ScalarAt(layers[j], f))
    ensures ScalarAt(Layered(base, layers), f) == ScalarAt(if i >= 0 then layers[i] else base, f)
  {
    i := |layers| - 1;
    if layers != [] {
      MergedAt(Layered(base, layers[..i]), layers[i], f, Hooks);
      if !IsSet(ScalarAt(layers[i], f)) {
        i := LastLayerThatSetsItWins(base, layers[..i], f);
      }
    }
  }

  /** A flag is on exactly when the base or some layer turns it on: no later layer can turn it off. */
  lemma {:induction false} FlagsStick(base: Layer, layers: seq<Layer>, f: Field)
    ensures IsSet(ScalarAt(Layered(base, layers), f)) <==>
              IsSet(ScalarAt(base, f)) || exists i :: 0 <= i < |layers| && IsSet(ScalarAt(layers[i], f))
  {
    var i := LastLayerThatSetsItWins(base, layers, f);
  }

  predicate SameAtKey(a: Entries, b: Entries, k: string) {
    (k in a <==> k in b) && (k in a ==> a[k] == b[k])
  }

  lemma KeyAfterMerge(a: Layer, b: Layer, t: TableName, k: string)
    ensures SameAtKey(TableAt(Merged(a, b), t), if k in TableAt(b, t) then TableAt(b, t) else TableAt(a, t), k)
  {
    MergedAt(a, b, OfText(Preset), t);
  }

  /** A map key has the value of the last layer that holds it, or else that of the base. */
  lemma {:induction false} LastLayerThatHoldsTheKeyWins(base: Layer, layers: seq<Layer>, t: TableName, k: string)
    returns (i: int)
    ensures -1 <= i < |layers| && (i >= 0 ==> k in TableAt(layers[i], t))
    ensures forall j :: i < j < |layers| ==> k !in TableAt(layers[j], t)
    ensures SameAtKey(TableAt(Layered(base, layers), t), TableAt(if i >= 0 then layers[i] else base, t), k)
  {
    i := |layers| - 1;
    if layers != [] {
      KeyAfterMerge(Layered(base, layers[..i]), layers[i], t, k);
      if k !in TableAt(layers[i], t) {
        i := LastLayerThatHoldsTheKeyWins(base, layers[..i], t, k);
      }
    }
  }

  // ---------------------------------------------------------------- settings in memory

  class Table {
    var entries: Entries

    constructor ()
      ensures entries == map[]
    {
      entries := map[];
    }
  }

  function WithTable(tables: map<TableName, Entries>, t: TableName): (r: map<TableName, Entries>)
    ensures t in r
  {
    if t in tables then tables else tables[t := map[]]
  }

  /** What copying entries into the map of one field makes of all maps. */
  function WithEntries(tables: map<TableName, Entries>, t: TableName, entries: Entries): map<TableName, Entries> {
    if entries == map[] then tables
    else tables[t := EntriesAt(tables, t) + entries]
  }

  lemma WithTableFirst(tables: map<TableName, Entries>, t: TableName, entries: Entries)
    requires entries != map[]
    ensures WithTable(tables, t)[t := WithTable(tables, t)[t] + entries] == WithEntries(tables, t, entries)
  {
  }

  class Settings {
    var scalars: map<Field, Scalar>
    var tables: map<TableName, Table>
    ghost var values: map<TableName, Entries>
    ghost var repr: set<Table>

    /** No two fields share a map; `values` is what the maps hold. */
    ghost predicate Valid()
      reads this, repr
    {
      && tables.Keys == values.Keys
      && (forall t :: t in tables ==> tables[t] in repr && tables[t].entries == values[t])
      && (forall t, u :: t in tables && u in tables && t != u ==> tables[t] != tables[u])
    }

    ghost function Contents(): Layer
      reads this
    {
      Layer(scalars, values)
    }

    constructor ()
      ensures Valid() && Contents() == Empty() && fresh(repr)
    {
      scalars, tables, values, repr := map[], map[], map[], {};
    }

    /** The map of a field, made first if there is none. */
    method TableFor(t: TableName) returns (table: Table)
      requires Valid()
      modifies this`tables, this`values, this`repr
      ensures Valid() && t in tables && tables[t] == table && fresh(repr - old(repr))
      ensures values == WithTable(old(values), t)
    {
      if t !in tables {
        table := new Table();
        tables, values, repr := tables[t := table], values[t := map[]], repr + {table};
      }
      table := tables[t];
    }

    method AddEntries(t: TableName, entries: Entries)
      requires Valid() && t in tables
      modifies this`values, tables[t]
      ensures Valid() && values == old(values)[t := old(values[t]) + entries]
    {
      var table := tables[t];
      table.entries := table.entries + entries;
      values := values[t := values[t] + entries];
    }

    /** maps.Copy into the settings' own map. */
    method CopyTable(t: TableName, entries: Entries)
      requires Valid()
      modifies this`tables, this`values, this`repr, repr
      ensures Valid() && fresh(repr - old(repr))
      ensures values == WithEntries(old(values), t, entries)
    {
      if entries != map[] {
        WithTableFirst(values, t, entries);
        var table := TableFor(t);
        AddEntries(t, entries);
      }
    }
  }

  const Tables: seq<TableName> :=
    [GitHubStatusMapping, GitLabStatusMapping, LinearStatusMapping, JiraStatusMapping, AzureStatusMapping,
     ApprovalRequired, PhaseGuardrails, Hooks, CustomAgents]

  lemma EveryTableIsListed(t: TableName)
    ensures t in Tables
  {
    assert Tables[0] == GitHubStatusMapping && Tables[1] == GitLabStatusMapping && Tables[2] == LinearStatusMapping;
    assert Tables[3] == JiraStatusMapping && Tables[4] == AzureStatusMapping && Tables[5] == ApprovalRequired;
    assert Tables[6] == PhaseGuardrails && Tables[7] == Hooks && Tables[8] == CustomAgents;
  }

  /** The maps after the first few tables have been merged. */
  function Copied(dst: map<TableName, Entries>, src: map<TableName, Entries>, names: seq<TableName>)
    : map<TableName, Entries>
  {
    if names == [] then dst
    else
      var t := names[|names| - 1];
      WithEntries(Copied(dst, src, names[..|names| - 1]), t, EntriesAt(src, t))
  }

  ghost predicate Distinct(names: seq<TableName>) {
    forall i, j :: 0 <= i < j < |names| ==> names[i] != names[j]
  }

  lemma WithEntriesAt(tables: map<TableName, Entries>, t: TableName, entries: Entries, u: TableName)
    ensures EntriesAt(WithEntries(tables, t, entries), u) == EntriesAt(tables, u) + if u == t then entries else map[]
    ensures u in WithEntries(tables, t, entries) <==> u in tables || (u == t && entries != map[])
  {
    assert EntriesAt(tables, u) + map[] == EntriesAt(tables, u);
  }

  lemma NotRepeated(names: seq<TableName>, t: TableName)
    requires Distinct(names) && names != []
    ensures var n := |names| - 1;
            Distinct(names[..n]) && names[n] !in names[..n] && (t in names <==> t in names[..n] || t == names[n])
  {
    assert names == names[..|names| - 1] + [names[|names| - 1]];
  }

  lemma {:induction false} CopiedAt(a: map<TableName, Entries>, b: map<TableName, Entries>, names: seq<TableName>,
                                    t: TableName)
    requires Distinct(names)
    ensures EntriesAt(Copied(a, b, names), t) == EntriesAt(a, t) + if t in names then EntriesAt(b, t) else map[]
    ensures t in Copied(a, b, names) <==> t in a || (t in names && EntriesAt(b, t) != map[])
  {
    assert EntriesAt(a, t) + map[] == EntriesAt(a, t);
    if names != [] {
      var n := |names| - 1;
      NotRepeated(names, t);
      CopiedAt(a, b, names[..n], t);
      WithEntriesAt(Copied(a, b, names[..n]), names[n], EntriesAt(b, names[n]), t);
    }
  }

  /** Copying table by table merges them all. */
  lemma CopyingAllIsMerging(a: map<TableName, Entries>, b: map<TableName, Entries>)
    ensures Copied(a, b, Tables) == MergedTables(a, b)
  {
    var l, r := Copied(a, b, Tables), MergedTables(a, b);
    forall t ensures EntriesAt(l, t) == EntriesAt(r, t) && (t in l <==> t in r) {
      EveryTableIsListed(t);
      CopiedAt(a, b, Tables, t);
    }
    assert l.Keys == r.Keys;
    forall t | t in l ensures l[t] == r[t] {
      assert EntriesAt(l, t) == EntriesAt(r, t);
    }
  }

  /** The tables of the source, one after the other. */
  method MergeTables(dst: Settings, src: Settings)
    requires dst.Valid() && src.Valid() && dst != src && dst.repr !! src.repr
    modifies dst`tables, dst`values, dst`repr, dst.repr
    ensures dst.Valid() && fresh(dst.repr - old(dst.repr))
    ensures dst.values == Copied(old(dst.values), src.values, Tables)
  {
    for i := 0 to |Tables|
      invariant dst.Valid() && fresh(dst.repr - old(dst.repr)) && src.Valid()
      invariant dst.values == Copied(old(dst.values), src.values, Tables[..i])
    {
      assert Tables[..i + 1][..i] == Tables[..i];
      if Tables[i] in src.tables {
        dst.CopyTable(Tables[i], src.tables[Tables[i]].entries);
      }
    }
    assert Tables[..|Tables|] == Tables;
  }

  lemma MergedScalarsNext(a: map<Field, Scalar>, b: map<Field, Scalar>, f: Field, v: Scalar)
    requires f !in b
    ensures MergedScalars(a, b[f := v]) == MergedScalars(a, b)[f := Over(ValueAt(a, f), v)]
    ensures ValueAt(MergedScalars(a, b), f) == ValueAt(a, f)
  {
  }

  lemma MergedScalarsNothing(a: map<Field, Scalar>)
    ensures MergedScalars(a, map[]) == a
  {
  }

  /** One field, by the rule of its kind. */
  method OverrideScalar(dst: Scalar, src: Scalar) returns (v: Scalar)
    ensures v == Over(dst, src)
  {
    v := dst;
    match src {
      case Text(s) =>
        if s != "" {
          v := src;
        }
      case List(items) =>
        if |items| > 0 {
          v := src;
        }
      case Switch(on) =>
        if on.Some? {
          v := src;
        }
      case Count(n) =>
        if n > 0 {
          v := src;
        }
      case Flag(raised) =>
        if raised {
          v := Flag(true);
        }
    }
  }

  /** Field by field; their order does not matter. */
  method MergeScalars(dst: Settings, src: Settings)
    requires dst != src
    modifies dst`scalars
    ensures dst.scalars == MergedScalars(old(dst.scalars), src.scalars)
  {
    ghost var before := dst.scalars;
    var left := src.scalars.Keys;
    VisitedBorders(src.scalars);
    MergedScalarsNothing(before);
    while left != {}
      invariant left <= src.scalars.Keys && dst.scalars == MergedScalars(before, Visited(src.scalars, left))
      decreases left
    {
      ghost var some := Pick(left);
      var f :| f in left;
      VisitedNext(src.scalars, left, f);
      MergedScalarsNext(before, Visited(src.scalars, left), f, src.scalars[f]);
      var v := OverrideScalar(ValueAt(dst.scalars, f), src.scalars[f]);
      dst.scalars := dst.scalars[f := v];
      left := left - {f};
    }
  }

  /** Merge: only the destination and its own maps change, and it never comes to share a map with the source. */
  method Merge(dst: Settings, src: Settings?)
    requires dst.Valid()
    requires src != null ==> src.Valid() && dst != src && dst.repr !! src.repr
    modifies dst, dst.repr
    ensures dst.Valid() && fresh(dst.repr - old(dst.repr))
    ensures dst.Contents()
              == if src == null then old(dst.Contents()) else Merged(old(dst.Contents()), old(src.Contents()))
  {
    if src == null {
      return;
    }
    CopyingAllIsMerging(dst.values, src.values);
    MergeTables(dst, src);
    MergeScalars(dst, src);
  }

  /** The preset named by the project, or else by the global settings. */
  method PresetName(global: Settings?, project: Settings?) returns (name: string)
    ensures name == NameIn(project, NameIn(global, ""))
    ensures project != null && TextOf(project) != "" ==> name == TextOf(project)
    ensures (project == null || TextOf(project) == "") && global != null ==> name == TextOf(global)
    ensures (project == null || TextOf(project) == "") && global == null ==> name == ""
  {
    name := "";
    if global != null && TextOf(global) != "" {
      name := TextOf(global);
    }
    if project != null && TextOf(project) != "" {
      name := TextOf(project);
    }
  }

  function TextOf(s: Settings): string
    reads s
  {
    if OfText(Preset) in s.scalars && s.scalars[OfText(Preset)].Text? then s.scalars[OfText(Preset)].text else ""
  }

  function NameIn(s: Settings?, otherwise: string): string
    reads s
  {
    if s != null && TextOf(s) != "" then TextOf(s) else otherwise
  }

  ghost function LayerOf(s: Settings?): seq<Layer>
    reads s
  {
    if s == null then [] else [s.Contents()]
  }

  ghost predicate Apart(s: Settings?, effective: Settings)
    reads s, effective, if s == null then {} else s.repr
  {
    s != null ==> s.Valid() && s != effective && s.repr !! effective.repr
  }

  method MergeLayer(effective: Settings, s: Settings?, ghost base: Layer, ghost layers: seq<Layer>)
    requires effective.Valid() && Apart(s, effective) && effective.Contents() == Layered(base, layers)
    modifies effective, effective.repr
    ensures effective.Valid() && fresh(effective.repr - old(effective.repr))
    ensures effective.Contents() == Layered(base, layers + old(LayerOf(s)))
  {
    LayeredNext(base, layers, s);
    Merge(effective, s);
  }

  /** The layering of LoadEffective, before the environment: the preset, the global and the project settings
      over the defaults, which become the effective settings. `presets` holds what ApplyPreset makes. Nothing
      but the effective settings changes, and they share no map with the others. */
  method LayerSettings(effective: Settings, presets: map<string, Settings>, global: Settings?, project: Settings?)
    requires effective.Valid() && Apart(global, effective) && Apart(project, effective)
    requires forall name :: name in presets ==> Apart(presets[name], effective)
    modifies effective, effective.repr
    ensures effective.Valid() && fresh(effective.repr - old(effective.repr))
    ensures effective.Contents() ==
              Layered(old(effective.Contents()),
                      old(PresetLayer(presets, global, project) + LayerOf(global) + LayerOf(project)))
  {
    var name := PresetName(global, project);
    var preset: Settings? := null;
    if name != "" && name in presets {
      preset := presets[name];
    }
    ghost var base, p, g := effective.Contents(), LayerOf(preset), LayerOf(global);
    assert [] + p == p;
    MergeLayer(effective, preset, base, []);
    MergeLayer(effective, global, base, p);
    MergeLayer(effective, project, base, p + g);
  }

  ghost function PresetLayer(presets: map<string, Settings>, global: Settings?, project: Settings?): seq<Layer>
    reads global, project, presets.Values
  {
    var name := NameIn(project, NameIn(global, ""));
    if name != "" && name in presets then LayerOf(presets[name]) else []
  }

  /** The preset layer: the one that the project names, or else the one that the global settings name; none if
      neither names one that there is. */
  lemma PresetIsTheNamedOne(presets: map<string, Settings>, global: Settings?, project: Settings?, name: string)
    requires project != null && TextOf(project) != "" ==> name == TextOf(project)
    requires project == null || TextOf(project) == "" ==> name == if global == null then "" else TextOf(global)
    ensures PresetLayer(presets, global, project) ==
            if name != "" && name in presets then [presets[name].Contents()] else []
  {
  }

  /** One more layer, if it is there. */
  lemma LayeredNext(base: Layer, layers: seq<Layer>, s: Settings?)
    ensures Layered(base, layers + LayerOf(s)) ==
            if s == null then Layered(base, layers) else Merged(Layered(base, layers), s.Contents())
  {
    if s == null {
      assert layers + [] == layers;
    } else {
      assert (layers + [s.Contents()])[..|layers|] == layers;
    }
  }
}
