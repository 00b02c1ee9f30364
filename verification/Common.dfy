/** What several of the models share. */
module Common {
  datatype Option<+T> = None | Some(value: T)

  /** A non-empty set has an element to take. */
  lemma Pick<T>(s: set<T>) returns (y: T)
    requires s != {}
    ensures y in s
  {
    y :| y in s;
  }

  /** Moving the border between the part done and the rest by one. */
  lemma Border<T>(s: seq<T>, i: nat)
    requires i < |s|
    ensures s[i..] == [s[i]] + s[i + 1..] && s[i..][1..] == s[i + 1..] && s[..i + 1] == s[..i] + [s[i]]
  {
  }

  lemma Whole<T>(s: seq<T>)
    ensures s[..|s|] == s
  {
  }

  lemma EndAt<T>(s: seq<T>, x: T, i: nat)
    requires i <= |s|
    ensures (s + [x])[i] == if i < |s| then s[i] else x
  {
  }

  /** Where the parts of a sequence are. */
  lemma Parts<T>(a: seq<T>, b: seq<T>, c: seq<T>, d: seq<T>, all: seq<T>)
    requires all == a + (b + c) + d
    ensures |a| + |b| + |c| <= |all|
    ensures all[|a|..|a| + |b|] == b && all[|a| + |b|..|a| + |b| + |c|] == c
  {
  }

  lemma LastOne<T>(s: seq<T>)
    requires s != []
    ensures s == s[..|s| - 1] + [s[|s| - 1]]
  {
  }

  lemma Regroup<T>(a: seq<T>, b: seq<T>, c: seq<T>)
    ensures a + (b + c) == (a + b) + c
  {
  }

  /** The part of a map that has been visited when the keys in `left` are still to come. */
  function Visited<K, V>(m: map<K, V>, left: set<K>): map<K, V> {
    map k | k in m && k !in left :: m[k]
  }

  lemma VisitedBorders<K, V>(m: map<K, V>)
    ensures Visited(m, m.Keys) == map[] && Visited(m, {}) == m
  {
  }

  lemma VisitedNext<K, V>(m: map<K, V>, left: set<K>, k: K)
    requires k in left && left <= m.Keys
    ensures k !in Visited(m, left) && Visited(m, left - {k}) == Visited(m, left)[k := m[k]]
  {
  }
}
