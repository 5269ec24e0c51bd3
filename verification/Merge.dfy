/**
  Merging a list of keyed values into a map, in order: each overwrites what is there, or (`keep`)
  yields to it.

  An import merges facts and properties in this way. `MergedAt` says key by key what comes out,
  `MergingTwice` that merging the list once more changes nothing, and `Rebuilds` that a list of a map's
  entries rebuilds it from nothing.
 */
module Merge {
  import opened Prelude

  /** A refused entry has no value. */
  datatype Keyed<K, V> = Keyed(key: K, value: Option<V>)

  function Put<K, V>(m: map<K, V>, e: Keyed<K, V>, keep: bool): map<K, V> {
    if e.value.None? || (keep && e.key in m) then m else m[e.key := e.value.value]
  }

  /** The entries from position `i` on. */
  function Merged<K, V>(m: map<K, V>, s: seq<Keyed<K, V>>, keep: bool, i: nat): map<K, V>
    requires i <= |s|
    decreases |s| - i
  {
    if i == |s| then m else Merged(Put(m, s[i], keep), s, keep, i + 1)
  }

  lemma MergedNext<K, V>(m: map<K, V>, s: seq<Keyed<K, V>>, keep: bool, i: nat)
    requires i < |s|
    ensures Merged(m, s, keep, i) == Merged(Put(m, s[i], keep), s, keep, i + 1)
  {
  }

  predicate Brings<K(==), V>(e: Keyed<K, V>, k: K) { e.key == k && e.value.Some? }

  predicate BroughtFrom<K(==), V>(s: seq<Keyed<K, V>>, i: nat, k: K) {
    exists j :: i <= j < |s| && Brings(s[j], k)
  }

  /** The last entry that brings its key. */
  predicate Last<K(==), V>(s: seq<Keyed<K, V>>, j: nat) {
    j < |s| && s[j].value.Some? && forall l :: j < l < |s| ==> !Brings(s[l], s[j].key)
  }

  /** The first entry, from `i` on, that brings its key. */
  predicate First<K(==), V>(s: seq<Keyed<K, V>>, i: nat, j: nat) {
    i <= j < |s| && s[j].value.Some? && forall l :: i <= l < j ==> !Brings(s[l], s[j].key)
  }

  predicate SameAt<K, V(==)>(a: map<K, V>, b: map<K, V>, k: K) {
    (k in a <==> k in b) && (k in b ==> a[k] == b[k])
  }

  lemma SameMap<K(!new), V>(a: map<K, V>, b: map<K, V>)
    requires forall k :: SameAt(a, b, k)
    ensures a == b
  {
    assert forall k :: k in a ==> SameAt(a, b, k);
    assert forall k :: k in b ==> SameAt(a, b, k);
  }

  lemma {:induction false} OthersStay<K, V>(m: map<K, V>, s: seq<Keyed<K, V>>, keep: bool, i: nat, k: K)
    requires i <= |s| && !BroughtFrom(s, i, k)
    ensures var r := Merged(m, s, keep, i); SameAt(r, m, k)
    decreases |s| - i
  {
    if i < |s| {
      assert !Brings(s[i], k);
      OthersStay(Put(m, s[i], keep), s, keep, i + 1, k);
    }
  }

  /** Overwriting: the last value of each key that is brought. */
  lemma {:induction false} LastWins<K, V>(m: map<K, V>, s: seq<Keyed<K, V>>, i: nat, j: nat)
    requires i <= j && Last(s, j)
    ensures var r := Merged(m, s, false, i); s[j].key in r && r[s[j].key] == s[j].value.value
    decreases |s| - i
  {
    if i < j {
      LastWins(Put(m, s[i], false), s, i + 1, j);
    } else {
      OthersStay(Put(m, s[i], false), s, false, i + 1, s[i].key);
    }
  }

  /** Keeping: what is there stays. */
  lemma {:induction false} OldWins<K, V>(m: map<K, V>, s: seq<Keyed<K, V>>, i: nat, k: K)
    requires i <= |s| && k in m
    ensures var r := Merged(m, s, true, i); k in r && r[k] == m[k]
    decreases |s| - i
  {
    if i < |s| { OldWins(Put(m, s[i], true), s, i + 1, k); }
  }

  /** Keeping: otherwise the first value that is brought. */
  lemma {:induction false} FirstWins<K, V>(m: map<K, V>, s: seq<Keyed<K, V>>, i: nat, j: nat)
    requires First(s, i, j) && s[j].key !in m
    ensures var r := Merged(m, s, true, i); s[j].key in r && r[s[j].key] == s[j].value.value
    decreases |s| - i
  {
    if i < j {
      assert !Brings(s[i], s[j].key);
      FirstWins(Put(m, s[i], true), s, i + 1, j);
    } else {
      OldWins(Put(m, s[i], true), s, i + 1, s[i].key);
    }
  }

  lemma {:induction false} HasLast<K, V>(s: seq<Keyed<K, V>>, i: nat, k: K) returns (j: nat)
    requires BroughtFrom(s, i, k)
    ensures i <= j && Last(s, j) && s[j].key == k
    decreases |s| - i
  {
    if BroughtFrom(s, i + 1, k) {
      j := HasLast(s, i + 1, k);
    } else {
      j := i;
    }
  }

  lemma {:induction false} HasFirst<K, V>(s: seq<Keyed<K, V>>, i: nat, k: K) returns (j: nat)
    requires BroughtFrom(s, i, k)
    ensures First(s, i, j) && s[j].key == k
    decreases |s| - i
  {
    if Brings(s[i], k) {
      j := i;
    } else {
      j := HasFirst(s, i + 1, k);
    }
  }

  /** The whole merge, key by key. */
  lemma MergedAt<K, V>(m: map<K, V>, s: seq<Keyed<K, V>>, keep: bool, k: K) returns (j: nat)
    ensures var r := Merged(m, s, keep, 0);
      if !BroughtFrom(s, 0, k) || (keep && k in m) then SameAt(r, m, k)
      else j < |s| && s[j].key == k && (if keep then First(s, 0, j) else Last(s, j)) && k in r && r[k] == s[j].value.value
  {
    j := 0;
    if !BroughtFrom(s, 0, k) {
      OthersStay(m, s, keep, 0, k);
    } else if keep && k in m {
      OldWins(m, s, 0, k);
    } else if keep {
      j := HasFirst(s, 0, k);
      FirstWins(m, s, 0, j);
    } else {
      j := HasLast(s, 0, k);
      LastWins(m, s, 0, j);
    }
  }

  /** Merging the same list again changes nothing. */
  lemma MergingTwice<K(!new), V>(m: map<K, V>, s: seq<Keyed<K, V>>, keep: bool)
    ensures Merged(Merged(m, s, keep, 0), s, keep, 0) == Merged(m, s, keep, 0)
  {
    var once := Merged(m, s, keep, 0);
    var twice := Merged(once, s, keep, 0);
    forall k ensures SameAt(twice, once, k) {
      TwiceAt(m, s, keep, k);
    }
    SameMap(twice, once);
  }

  lemma TwiceAt<K, V>(m: map<K, V>, s: seq<Keyed<K, V>>, keep: bool, k: K)
    ensures var once := Merged(m, s, keep, 0);
            var twice := Merged(once, s, keep, 0);
            SameAt(twice, once, k)
  {
    var once := Merged(m, s, keep, 0);
    if !BroughtFrom(s, 0, k) {
      OthersStay(once, s, keep, 0, k);
    } else if keep {
      var j := MergedAt(m, s, true, k);
      OldWins(once, s, 0, k);
    } else {
      var j := HasLast(s, 0, k);
      LastWins(m, s, 0, j);
      LastWins(once, s, 0, j);
    }
  }

  /** A list that brings every key of `m` with its value, and nothing else, rebuilds `m` from nothing. */
  lemma Rebuilds<K(!new), V>(m: map<K, V>, s: seq<Keyed<K, V>>, keep: bool)
    requires forall k :: k in m <==> BroughtFrom(s, 0, k)
    requires forall j :: 0 <= j < |s| && s[j].key in m && s[j].value.Some? ==> s[j].value.value == m[s[j].key]
    ensures Merged(map[], s, keep, 0) == m
  {
    var r := Merged(map[], s, keep, 0);
    forall k ensures SameAt(r, m, k) {
      var j := MergedAt(map[], s, keep, k);
    }
    SameMap(r, m);
  }
}
