/** The config migration chain (settings/version.go). A decoded config is a map; a migration changes it and
    may fail, leaving behind what it has changed by then. */
module Migration {
  import opened Common

  datatype Value = Null | Int(n: int) | Float(r: real) | Other(text: string)

  type Raw = map<string, Value>

  datatype Applied = Applied(raw: Raw, ok: bool)

  datatype Migration = Migration(from: int, to: int, apply: Raw -> Applied)

  datatype Error =
    | NewerThanSupported(version: int)
    | NoMigration(from: int)
    | WrongStep(from: int, to: int)
    | ApplyFailed(from: int)

  datatype Outcome = Outcome(raw: Raw, error: Option<Error>)

  const VersionKey := "version"

  /** Go's conversion of a float to an integer. */
  function Truncated(r: real): int {
    if r >= 0.0 then r.Floor else -((-r).Floor)
  }

  function VersionOf(raw: Raw): int {
    if VersionKey !in raw then 0
    else match raw[VersionKey]
      case Int(n) => n
      case Float(r) => Truncated(r)
      case _ => 0
  }

  /** The version of a config: 0 where there is none, a whole number as it is, any other number without its
      fraction, 0 for anything else. */
  lemma VersionIsRead(raw: Raw)
    ensures VersionKey !in raw ==> VersionOf(raw) == 0
    ensures VersionKey in raw ==>
              match raw[VersionKey]
              case Int(n) => VersionOf(raw) == n
              case Float(r) => if r >= 0.0 then VersionOf(raw) as real <= r < (VersionOf(raw) + 1) as real
                               else (VersionOf(raw) - 1) as real < r <= VersionOf(raw) as real
              case Null => VersionOf(raw) == 0
              case Other(_) => VersionOf(raw) == 0
  {
  }

  // ---------------------------------------------------------------- looking up a step

  /** The first migration of the chain that starts at a version. */
  ghost predicate IsFirst(chain: seq<Migration>, from: int, i: nat) {
    i < |chain| && chain[i].from == from && forall j :: 0 <= j < i ==> chain[j].from != from
  }

  function MigrationFor(chain: seq<Migration>, from: int): (m: Option<Migration>)
    ensures m.None? ==> forall i :: 0 <= i < |chain| ==> chain[i].from != from
    ensures m.Some? ==> exists i: nat :: IsFirst(chain, from, i) && chain[i] == m.value
  {
    if chain == [] then None
    else if chain[0].from == from then
      assert IsFirst(chain, from, 0);
      Some(chain[0])
    else
      var m := MigrationFor(chain[1..], from);
      assert m.Some? ==> exists i: nat :: IsFirst(chain, from, i) && chain[i] == m.value by {
        if m.Some? {
          var i: nat :| IsFirst(chain[1..], from, i) && chain[1..][i] == m.value;
          assert IsFirst(chain, from, i + 1);
        }
      }
      assert forall i :: 1 <= i < |chain| ==> chain[i] == chain[1..][i - 1];
      m
  }

  method FindMigration(chain: seq<Migration>, from: int) returns (m: Option<Migration>)
    ensures m == MigrationFor(chain, from)
  {
    assert chain[0..] == chain;
    for i := 0 to |chain|
      invariant MigrationFor(chain, from) == MigrationFor(chain[i..], from)
    {
      Border(chain, i);
      if chain[i].from == from {
        return Some(chain[i]);
      }
    }
    return None;
  }

  // ---------------------------------------------------------------- climbing

  /** One step: what it leaves, and why it stops if it does. */
  function Step(chain: seq<Migration>, raw: Raw, current: int): Outcome {
    match MigrationFor(chain, current)
    case None => Outcome(raw, Some(NoMigration(current)))
    case Some(m) =>
      if m.to != current + 1 then Outcome(raw, Some(WrongStep(current, m.to)))
      else if m.apply(raw).ok then Outcome(m.apply(raw).raw, None)
      else Outcome(m.apply(raw).raw, Some(ApplyFailed(current)))
  }

  /** From one version up to another, one at a time. */
  function Climb(chain: seq<Migration>, raw: Raw, current: int, target: int): Outcome
    decreases target - current
  {
    if current >= target then Outcome(raw, None)
    else
      var o := Step(chain, raw, current);
      if o.error.Some? then o else Climb(chain, o.raw, current + 1, target)
  }

  function Migrated(chain: seq<Migration>, raw: Raw, target: int): Outcome {
    var current := VersionOf(raw);
    if current > target then Outcome(raw, Some(NewerThanSupported(current)))
    else if current == target then Outcome(raw, None)
    else
      var o := Climb(chain, raw, current, target);
      if o.error.Some? then o else Outcome(o.raw[VersionKey := Int(target)], None)
  }

  /** The migrations that ran, in order, each from where the one before it ended, and what they made of the
      config. */
  ghost predicate Ran(chain: seq<Migration>, raw: Raw, current: int, ms: seq<Migration>, out: Raw)
    decreases |ms|
  {
    if ms == [] then out == raw
    else
      && (exists i: nat :: IsFirst(chain, current, i) && chain[i] == ms[0])
      && ms[0].to == current + 1 && ms[0].apply(raw).ok
      && Ran(chain, ms[0].apply(raw).raw, current + 1, ms[1..], out)
  }

  lemma {:induction false} RanFroms(chain: seq<Migration>, raw: Raw, current: int, ms: seq<Migration>, out: Raw, i: nat)
    requires Ran(chain, raw, current, ms, out) && i < |ms|
    ensures ms[i].from == current + i && ms[i].to == current + i + 1
    decreases |ms|
  {
    if i > 0 {
      RanFroms(chain, ms[0].apply(raw).raw, current + 1, ms[1..], out, i - 1);
    }
  }

  /** A climb that succeeds has run one migration for each version from `current` to `target - 1`. */
  lemma {:induction false} ClimbRunsEachOnce(chain: seq<Migration>, raw: Raw, current: int, target: int)
    returns (ms: seq<Migration>)
    requires current <= target && Climb(chain, raw, current, target).error.None?
    ensures |ms| == target - current && Ran(chain, raw, current, ms, Climb(chain, raw, current, target).raw)
    decreases target - current
  {
    ms := [];
    if current < target {
      var m := MigrationFor(chain, current).value;
      ms := ClimbRunsEachOnce(chain, m.apply(raw).raw, current + 1, target);
      assert ([m] + ms)[1..] == ms;
      ms := [m] + ms;
    }
  }

  /** Conversely, where such a run exists the climb succeeds with its outcome. */
  lemma {:induction false} RunsClimb(chain: seq<Migration>, raw: Raw, current: int, ms: seq<Migration>, out: Raw)
    requires Ran(chain, raw, current, ms, out)
    ensures Climb(chain, raw, current, current + |ms|) == Outcome(out, None)
    decreases |ms|
  {
    if ms != [] {
      var m := MigrationFor(chain, current);
      var i: nat :| IsFirst(chain, current, i) && chain[i] == ms[0];
      assert m.Some?;
      var j: nat :| IsFirst(chain, current, j) && chain[j] == m.value;
      assert i == j;
      RunsClimb(chain, ms[0].apply(raw).raw, current + 1, ms[1..], out);
    }
  }

  /** On success exactly the migrations current..target-1 have run, once each and in order, and the target is
      stamped. */
  lemma SuccessRunsEachOnce(chain: seq<Migration>, raw: Raw, target: int) returns (ms: seq<Migration>, out: Raw)
    requires Migrated(chain, raw, target).error.None?
    ensures |ms| == target - VersionOf(raw) && Ran(chain, raw, VersionOf(raw), ms, out)
    ensures forall i :: 0 <= i < |ms| ==> ms[i].from == VersionOf(raw) + i && ms[i].to == VersionOf(raw) + i + 1
    ensures Migrated(chain, raw, target).raw == if ms == [] then raw else out[VersionKey := Int(target)]
    ensures VersionOf(Migrated(chain, raw, target).raw) == target
  {
    ms := ClimbRunsEachOnce(chain, raw, VersionOf(raw), target);
    out := Climb(chain, raw, VersionOf(raw), target).raw;
    forall i | 0 <= i < |ms| ensures ms[i].from == VersionOf(raw) + i && ms[i].to == VersionOf(raw) + i + 1 {
      RanFroms(chain, raw, VersionOf(raw), ms, out, i);
    }
  }

  /** Why the next step fails at version `v` with this config, and what it leaves. */
  ghost predicate FailsAt(chain: seq<Migration>, before: Raw, v: int, after: Raw, error: Error) {
    match error
    case NoMigration(from) =>
      from == v && after == before && forall i :: 0 <= i < |chain| ==> chain[i].from != v
    case WrongStep(from, to) =>
      from == v && after == before && to != v + 1 && exists i: nat :: IsFirst(chain, v, i) && chain[i].to == to
    case ApplyFailed(from) =>
      from == v && exists i: nat :: IsFirst(chain, v, i) && chain[i].to == v + 1 && !chain[i].apply(before).ok
                                    && chain[i].apply(before).raw == after
    case NewerThanSupported(_) => false
  }

  lemma StepFailsAt(chain: seq<Migration>, raw: Raw, v: int)
    requires Step(chain, raw, v).error.Some?
    ensures FailsAt(chain, raw, v, Step(chain, raw, v).raw, Step(chain, raw, v).error.value)
  {
    var m := MigrationFor(chain, v);
    if m.Some? {
      var i: nat :| IsFirst(chain, v, i) && chain[i] == m.value;
    }
  }

  lemma {:induction false} ClimbFailsAt(chain: seq<Migration>, raw: Raw, current: int, target: int)
      returns (ms: seq<Migration>, out: Raw)
    requires Climb(chain, raw, current, target).error.Some?
    ensures current + |ms| < target && Ran(chain, raw, current, ms, out)
    ensures var o := Climb(chain, raw, current, target); FailsAt(chain, out, current + |ms|, o.raw, o.error.value)
    decreases target - current
  {
    var o := Step(chain, raw, current);
    if o.error.Some? {
      ms, out := [], raw;
      StepFailsAt(chain, raw, current);
    } else {
      var m := MigrationFor(chain, current).value;
      ms, out := ClimbFailsAt(chain, o.raw, current + 1, target);
      assert ([m] + ms)[1..] == ms;
      ms := [m] + ms;
    }
  }

  /** A run that fails was refused for a newer version, unchanged, or has run one migration for each version up to
      the one at which the next step fails: for want of a migration, for one that goes elsewhere, or in it. */
  lemma FailureTellsWhere(chain: seq<Migration>, raw: Raw, target: int) returns (ms: seq<Migration>, out: Raw)
    requires Migrated(chain, raw, target).error.Some?
    ensures VersionOf(raw) > target ==>
              Migrated(chain, raw, target) == Outcome(raw, Some(NewerThanSupported(VersionOf(raw))))
    ensures VersionOf(raw) <= target ==>
              var o := Migrated(chain, raw, target);
              && VersionOf(raw) + |ms| < target && Ran(chain, raw, VersionOf(raw), ms, out)
              && FailsAt(chain, out, VersionOf(raw) + |ms|, o.raw, o.error.value)
  {
    ms, out := [], raw;
    if VersionOf(raw) <= target {
      ms, out := ClimbFailsAt(chain, raw, VersionOf(raw), target);
    }
  }

  /** A second run finds the target version and changes nothing, whatever the chain is by then. */
  lemma SecondRunChangesNothing(chain: seq<Migration>, raw: Raw, target: int, chain': seq<Migration>)
    requires Migrated(chain, raw, target).error.None?
    ensures Migrated(chain', Migrated(chain, raw, target).raw, target)
              == Outcome(Migrated(chain, raw, target).raw, None)
  {
    var ms, out := SuccessRunsEachOnce(chain, raw, target);
  }

  // ---------------------------------------------------------------- in two legs

  predicate SameButVersion(x: Raw, y: Raw) {
    x - {VersionKey} == y - {VersionKey}
  }

  lemma SameWhenStamped(x: Raw, y: Raw, v: Value)
    ensures SameButVersion(x, y) <==> x[VersionKey := v] == y[VersionKey := v]
  {
    assert (x - {VersionKey})[VersionKey := v] == x[VersionKey := v]
           && x[VersionKey := v] - {VersionKey} == x - {VersionKey};
    assert (y - {VersionKey})[VersionKey := v] == y[VersionKey := v]
           && y[VersionKey := v] - {VersionKey} == y - {VersionKey};
  }

  /** The same error, or none and the same config up to the version. */
  predicate Alike(x: Outcome, y: Outcome) {
    x.error == y.error && (x.error.None? ==> SameButVersion(x.raw, y.raw))
  }

  /** Going to `m` first and then to `n` ends as going straight to `n`: with the same error, or with none and
      the same config. */
  predicate LegsAgree(chain: seq<Migration>, raw: Raw, m: int, n: int) {
    var straight, legs := Migrated(chain, raw, n), Migrated(chain, Migrated(chain, raw, m).raw, n);
    legs.error == straight.error && (straight.error.None? ==> legs.raw == straight.raw)
  }

  ghost predicate TwoLegsLaw(chain: seq<Migration>) {
    forall raw, m, n :: m <= n && Migrated(chain, raw, m).error.None? ==> LegsAgree(chain, raw, m, n)
  }

  /** The chain arrives at version `v` with this config, after at least one step and before any stamp. */
  ghost predicate Reached(chain: seq<Migration>, out: Raw, v: int) {
    exists raw :: ReachedFrom(chain, raw, out, v)
  }

  predicate ReachedFrom(chain: seq<Migration>, raw: Raw, out: Raw, v: int) {
    VersionOf(raw) < v && Climb(chain, raw, VersionOf(raw), v) == Outcome(out, None)
  }

  /** The next step does the same with the stamp as without, apart from the version itself. */
  predicate StampIsHarmless(chain: seq<Migration>, out: Raw, v: int) {
    Alike(Step(chain, out, v), Step(chain, out[VersionKey := Int(v)], v))
  }

  ghost predicate StampsAreHarmless(chain: seq<Migration>) {
    forall out, v :: Reached(chain, out, v) ==> StampIsHarmless(chain, out, v)
  }

  lemma {:induction false} ClimbInTwoLegs(chain: seq<Migration>, raw: Raw, current: int, m: int, n: int)
    requires current <= m <= n
    ensures Climb(chain, raw, current, n) ==
            var o := Climb(chain, raw, current, m);
            if o.error.Some? then o else Climb(chain, o.raw, m, n)
    decreases m - current
  {
    if current < m {
      var o := Step(chain, raw, current);
      if o.error.None? {
        ClimbInTwoLegs(chain, o.raw, current + 1, m, n);
      }
    }
  }

  lemma ClimbOne(chain: seq<Migration>, raw: Raw, v: int)
    ensures Climb(chain, raw, v, v + 1) == Step(chain, raw, v)
  {
    var o := Step(chain, raw, v);
    assert o.error.None? ==> Climb(chain, o.raw, v + 1, v + 1) == Outcome(o.raw, None);
  }

  lemma ReachedNext(chain: seq<Migration>, out: Raw, v: int)
    requires Reached(chain, out, v) && Step(chain, out, v).error.None?
    ensures Reached(chain, Step(chain, out, v).raw, v + 1)
  {
    var raw :| ReachedFrom(chain, raw, out, v);
    ClimbInTwoLegs(chain, raw, VersionOf(raw), v, v + 1);
    ClimbOne(chain, out, v);
    assert ReachedFrom(chain, raw, Step(chain, out, v).raw, v + 1);
  }

  lemma ReachedFromStamp(chain: seq<Migration>, out: Raw, v: int)
    requires Step(chain, out[VersionKey := Int(v)], v).error.None?
    ensures Reached(chain, Step(chain, out[VersionKey := Int(v)], v).raw, v + 1)
  {
    var raw := out[VersionKey := Int(v)];
    ClimbOne(chain, raw, v);
    assert ReachedFrom(chain, raw, Step(chain, raw, v).raw, v + 1);
  }

  lemma {:induction false} ClimbAlike(chain: seq<Migration>, x: Raw, y: Raw, v: int, n: int)
    requires StampsAreHarmless(chain) && Reached(chain, x, v) && Reached(chain, y, v) && SameButVersion(x, y)
    ensures Alike(Climb(chain, x, v, n), Climb(chain, y, v, n))
    decreases n - v
  {
    if v < n {
      assert StampIsHarmless(chain, x, v) && StampIsHarmless(chain, y, v);
      SameWhenStamped(x, y, Int(v));
      if Step(chain, x, v).error.None? {
        ReachedNext(chain, x, v);
        ReachedNext(chain, y, v);
        ClimbAlike(chain, Step(chain, x, v).raw, Step(chain, y, v).raw, v + 1, n);
      }
    }
  }

  lemma StampedClimbAlike(chain: seq<Migration>, out: Raw, m: int, n: int)
    requires StampsAreHarmless(chain) && Reached(chain, out, m) && m <= n
    ensures Alike(Climb(chain, out, m, n), Climb(chain, out[VersionKey := Int(m)], m, n))
  {
    if m < n {
      assert StampIsHarmless(chain, out, m);
      if Step(chain, out, m).error.None? {
        ReachedNext(chain, out, m);
        ReachedFromStamp(chain, out, m);
        ClimbAlike(chain, Step(chain, out, m).raw, Step(chain, out[VersionKey := Int(m)], m).raw, m + 1, n);
      }
    } else {
      SameWhenStamped(out, out[VersionKey := Int(m)], Int(m));
    }
  }

  lemma LegsAgreeWhenHarmless(chain: seq<Migration>, raw: Raw, m: int, n: int)
    requires StampsAreHarmless(chain) && m <= n && Migrated(chain, raw, m).error.None?
    ensures LegsAgree(chain, raw, m, n)
  {
    var current := VersionOf(raw);
    if current < m {
      var out := Climb(chain, raw, current, m).raw;
      assert ReachedFrom(chain, raw, out, m);
      ClimbInTwoLegs(chain, raw, current, m, n);
      StampedClimbAlike(chain, out, m, n);
      SameWhenStamped(Climb(chain, out, m, n).raw, Climb(chain, out[VersionKey := Int(m)], m, n).raw, Int(n));
    }
  }

  lemma HarmlessWhenLegsAgree(chain: seq<Migration>, raw: Raw, out: Raw, v: int)
    requires ReachedFrom(chain, raw, out, v) && LegsAgree(chain, raw, v, v + 1)
    ensures StampIsHarmless(chain, out, v)
  {
    var stamped := out[VersionKey := Int(v)];
    ClimbInTwoLegs(chain, raw, VersionOf(raw), v, v + 1);
    ClimbOne(chain, out, v);
    ClimbOne(chain, stamped, v);
    assert Migrated(chain, raw, v).raw == stamped;
    SameWhenStamped(Step(chain, out, v).raw, Step(chain, stamped, v).raw, Int(v + 1));
  }

  /** Migrating in two legs always ends as migrating in one if and only if no step, at any config the chain
      can arrive at it with, is changed by the stamp of its version, in more than the version. */
  lemma TwoLegsAreOneExactly(chain: seq<Migration>)
    ensures TwoLegsLaw(chain) <==> StampsAreHarmless(chain)
  {
    if TwoLegsLaw(chain) {
      forall out, v | Reached(chain, out, v) ensures StampIsHarmless(chain, out, v) {
        var raw :| ReachedFrom(chain, raw, out, v);
        assert Migrated(chain, raw, v).error.None?;
        assert LegsAgree(chain, raw, v, v + 1);
        HarmlessWhenLegsAgree(chain, raw, out, v);
      }
    }
    if StampsAreHarmless(chain) {
      forall raw, m, n | m <= n && Migrated(chain, raw, m).error.None? ensures LegsAgree(chain, raw, m, n) {
        LegsAgreeWhenHarmless(chain, raw, m, n);
      }
    }
  }

  /** The migration does the same to configs that differ in the version only; it may write the version. */
  ghost predicate IgnoresVersion(m: Migration) {
    forall x, y :: SameButVersion(x, y) ==> AppliesAlike(m, x, y)
  }

  predicate AppliesAlike(m: Migration, x: Raw, y: Raw) {
    m.apply(x).ok == m.apply(y).ok && SameButVersion(m.apply(x).raw, m.apply(y).raw)
  }

  /** What can be checked one migration at a time is enough. */
  lemma TwoLegsAreOne(chain: seq<Migration>)
    requires forall i :: 0 <= i < |chain| ==> IgnoresVersion(chain[i])
    ensures TwoLegsLaw(chain)
  {
    forall out, v | Reached(chain, out, v) ensures StampIsHarmless(chain, out, v) {
      var stamped := out[VersionKey := Int(v)];
      SameWhenStamped(out, stamped, Int(v));
      var found := MigrationFor(chain, v);
      if found.Some? {
        assert AppliesAlike(found.value, out, stamped);
      }
    }
    TwoLegsAreOneExactly(chain);
  }

  /** Puts the version it finds under another key. */
  function CopyVersion(raw: Raw): Applied {
    Applied(raw["was" := if VersionKey in raw then raw[VersionKey] else Null], true)
  }

  /** Without the condition it is false: the migration from 1 copies the version it finds. */
  lemma ReadingTheVersionMatters()
    ensures var chain := [Migration(0, 1, raw => Applied(raw, true)), Migration(1, 2, CopyVersion)];
            && Migrated(chain, map[], 1).error.None? && Migrated(chain, map[], 2).error.None?
            && !LegsAgree(chain, map[], 1, 2) && !TwoLegsLaw(chain)
  {
    var chain := [Migration(0, 1, raw => Applied(raw, true)), Migration(1, 2, CopyVersion)];
    assert MigrationFor(chain, 0) == Some(chain[0]);
    assert MigrationFor(chain, 1) == Some(chain[1]);
    assert Climb(chain, map[], 0, 1) == Outcome(map[], None);
    var stamped: Raw := map[VersionKey := Int(1)];
    assert Migrated(chain, map[], 1).raw == stamped;
    assert Migrated(chain, stamped, 2).raw["was"] == Int(1);
    assert Migrated(chain, map[], 2).raw["was"] == Null;
  }

  // ---------------------------------------------------------------- migrateRawTo

  class Config {
    var raw: Raw

    constructor (initial: Raw)
      ensures raw == initial
    {
      raw := initial;
    }

    /** A migration that fails leaves the config as the steps so far have changed it, unstamped. */
    method MigrateTo(chain: seq<Migration>, target: int) returns (changed: bool, error: Option<Error>)
      modifies this
      ensures Outcome(raw, error) == Migrated(chain, old(raw), target)
      ensures changed <==> error.None? && VersionOf(old(raw)) < target
    {
      var current := VersionOf(raw);
      if current > target {
        return false, Some(NewerThanSupported(current));
      }
      if current == target {
        return false, None;
      }
      while current < target
        invariant current <= target
        invariant Climb(chain, raw, current, target) == Climb(chain, old(raw), VersionOf(old(raw)), target)
      {
        var m := FindMigration(chain, current);
        if m.None? {
          return false, Some(NoMigration(current));
        }
        if m.value.to != current + 1 {
          return false, Some(WrongStep(current, m.value.to));
        }
        var applied := m.value.apply(raw);
        raw := applied.raw;
        if !applied.ok {
          return false, Some(ApplyFailed(current));
        }
        current := m.value.to;
      }
      raw := raw[VersionKey := Int(target)];
      return true, None;
    }
  }
}
