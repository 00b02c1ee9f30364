/** Sets of integers listed in ascending order: sorted directory listings and sorted map keys. */
module SortedSets {
  import opened Common

  ghost predicate IsSmallest(m: int, s: set<int>) {
    m in s && forall x :: x in s ==> m <= x
  }

  lemma {:induction false} SmallestExists(s: set<int>)
    requires s != {}
    ensures exists m :: IsSmallest(m, s)
    decreases |s|
  {
    var y := Pick(s);
    if s == {y} {
      assert IsSmallest(y, s);
    } else {
      var rest := s - {y};
      SmallestExists(rest);
      var least :| IsSmallest(least, rest);
      assert forall x :: x in s ==> x == y || x in rest;
      assert IsSmallest(if least <= y then least else y, s);
    }
  }

  ghost function Smallest(s: set<int>): (m: int)
    requires s != {}
    ensures IsSmallest(m, s)
  {
    SmallestExists(s);
    var m :| IsSmallest(m, s);
    m
  }

  ghost function Sorted(s: set<int>): seq<int>
    decreases |s|
  {
    if s == {} then [] else [Smallest(s)] + Sorted(s - {Smallest(s)})
  }

  ghost predicate Ascending(r: seq<int>) {
    forall i, j :: 0 <= i < j < |r| ==> r[i] < r[j]
  }

  /** `r` lists exactly the elements of `s`. */
  ghost predicate Lists(r: seq<int>, s: set<int>) {
    && |r| == |s|
    && (forall i :: 0 <= i < |r| ==> r[i] in s)
    && (forall x :: x in s ==> x in r)
  }

  lemma AscendingCons(m: int, r: seq<int>)
    requires Ascending(r) && forall i :: 0 <= i < |r| ==> m < r[i]
    ensures Ascending([m] + r)
  {
    forall i, j | 0 <= i < j < |[m] + r| ensures ([m] + r)[i] < ([m] + r)[j] {
      if i > 0 {
        assert r[i - 1] < r[j - 1];
      }
    }
  }

  lemma {:induction false} SortedListsTheSet(s: set<int>)
    ensures Lists(Sorted(s), s) && Ascending(Sorted(s))
    decreases |s|
  {
    if s != {} {
      var m, rest := Smallest(s), s - {Smallest(s)};
      SortedListsTheSet(rest);
      assert Sorted(s) == [m] + Sorted(rest);
      assert forall x :: x in s <==> x == m || x in rest;
      assert Lists(Sorted(s), s);
      AscendingCons(m, Sorted(rest));
    }
  }

  /** sort.Strings on file names, slices.Sort on indices. */
  method Sort(s: set<int>) returns (r: seq<int>)
    ensures r == Sorted(s)
  {
    r := [];
    var left := s;
    while left != {}
      invariant Sorted(s) == r + Sorted(left)
      decreases |left|
    {
      assert IsSmallest(Smallest(left), left);
      var m :| m in left && forall x :: x in left ==> m <= x;
      assert m == Smallest(left);
      r := r + [m];
      left := left - {m};
    }
  }
}
