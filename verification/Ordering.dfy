/**
  ORDER BY: the strict orders on the sort keys, and the one listing of a set in such an order.

  The database returns rows in order of a key. Where all keys differ this leaves one list
  (`ListingIsUnique`). Where they can be equal, which of the equal rows a LIMIT takes and how they are
  ordered among themselves is left open (`Nearest`).
 */
module Ordering {

  ghost predicate StrictOrder<T(!new)>(less: (T, T) -> bool) {
    && (forall x :: !less(x, x))
    && (forall x, y :: x == y || less(x, y) || less(y, x))
    && (forall x, y, z :: less(x, y) && less(y, z) ==> less(x, z))
  }

  ghost predicate Ascending<T(!new)>(s: seq<T>, less: (T, T) -> bool) {
    forall i, j :: 0 <= i < j < |s| ==> less(s[i], s[j])
  }

  /** The elements of `xs`, each once, in ascending order. */
  ghost predicate Lists<T(!new)>(s: seq<T>, xs: set<T>, less: (T, T) -> bool) {
    Ascending(s, less) && forall x :: x in s <==> x in xs
  }

  function Map<A, B>(f: A -> B, s: seq<A>): (r: seq<B>)
    ensures |r| == |s| && forall i :: 0 <= i < |s| ==> r[i] == f(s[i])
  {
    seq(|s|, i requires 0 <= i < |s| => f(s[i]))
  }

  // ---- strings compare character by character ----

  predicate StringLess(a: string, b: string) {
    b != "" && (a == "" || a[0] < b[0] || (a[0] == b[0] && StringLess(a[1..], b[1..])))
  }

  lemma {:induction false} StringIrreflexive(a: string)
    ensures !StringLess(a, a)
  {
    if a != "" { StringIrreflexive(a[1..]); }
  }

  lemma {:induction false} StringTotal(a: string, b: string)
    ensures a == b || StringLess(a, b) || StringLess(b, a)
  {
    if a != "" && b != "" && a[0] == b[0] {
      StringTotal(a[1..], b[1..]);
      assert a == [a[0]] + a[1..] && b == [b[0]] + b[1..];
    }
  }

  lemma {:induction false} StringTransitive(a: string, b: string, c: string)
    requires StringLess(a, b) && StringLess(b, c)
    ensures StringLess(a, c)
  {
    if a != "" && a[0] == b[0] == c[0] {
      StringTransitive(a[1..], b[1..], c[1..]);
    }
  }

  lemma StringOrder()
    ensures StrictOrder(StringLess)
  {
    forall x { StringIrreflexive(x); }
    forall x, y { StringTotal(x, y); }
    forall x, y, z | StringLess(x, y) && StringLess(y, z) { StringTransitive(x, y, z); }
  }

  predicate IntLess(a: int, b: int) { a < b }

  lemma IntOrder()
    ensures StrictOrder(IntLess)
  {
  }

  // ---- a set has exactly one listing ----

  lemma {:induction false} ListingIsUnique<T(!new)>(s: seq<T>, t: seq<T>, xs: set<T>, less: (T, T) -> bool)
    requires StrictOrder(less) && Lists(s, xs, less) && Lists(t, xs, less)
    ensures s == t
    decreases xs
  {
    if xs == {} {
      if s != [] { HeadBelongs(s, xs, less); }
      if t != [] { HeadBelongs(t, xs, less); }
    } else {
      SameHead(s, t, xs, less);
      TailLists(s, xs, less);
      TailLists(t, xs, less);
      ListingIsUnique(s[1..], t[1..], xs - {s[0]}, less);
      assert s == [s[0]] + s[1..] && t == [t[0]] + t[1..];
    }
  }

  lemma HeadBelongs<T(!new)>(s: seq<T>, xs: set<T>, less: (T, T) -> bool)
    requires Lists(s, xs, less) && s != []
    ensures s[0] in xs
  {
    assert s[0] in s;
  }

  lemma SameHead<T(!new)>(s: seq<T>, t: seq<T>, xs: set<T>, less: (T, T) -> bool)
    requires StrictOrder(less) && Lists(s, xs, less) && Lists(t, xs, less) && xs != {}
    ensures s != [] && t != [] && s[0] == t[0]
  {
    var x :| x in xs;
    assert x in s && x in t;
    assert s[0] in t && t[0] in s;
    HeadIsLeast(s, t[0], less);
    HeadIsLeast(t, s[0], less);
  }

  lemma HeadIsLeast<T(!new)>(s: seq<T>, x: T, less: (T, T) -> bool)
    requires Ascending(s, less) && x in s
    ensures x == s[0] || less(s[0], x)
  {
    var i :| 0 <= i < |s| && s[i] == x;
  }

  lemma TailLists<T(!new)>(s: seq<T>, xs: set<T>, less: (T, T) -> bool)
    requires StrictOrder(less) && Lists(s, xs, less) && s != []
    ensures s[0] in xs && Lists(s[1..], xs - {s[0]}, less)
  {
    HeadBelongs(s, xs, less);
    forall x ensures x in s[1..] <==> x in xs && x != s[0] {
      HeadOrTail(s, x);
      if x in s[1..] {
        var i :| 0 <= i < |s[1..]| && s[1..][i] == x;
        assert less(s[0], s[i + 1]);
      }
    }
  }

  lemma HeadOrTail<T>(s: seq<T>, x: T)
    requires s != []
    ensures x in s <==> x == s[0] || x in s[1..]
  {
    assert s == [s[0]] + s[1..];
  }

  /** Where `x` goes in an ascending sequence that does not hold it. */
  method Insert<T(!new)>(s: seq<T>, x: T, ghost xs: set<T>, less: (T, T) -> bool) returns (r: seq<T>)
    requires StrictOrder(less) && Lists(s, xs, less) && x !in xs
    ensures Lists(r, xs + {x}, less)
  {
    var i := 0;
    while i < |s| && less(s[i], x)
      invariant 0 <= i <= |s|
      invariant forall j :: 0 <= j < i ==> less(s[j], x)
    {
      i := i + 1;
    }
    assert i < |s| ==> s[i] in s;
    InsertedLists(s, x, i, xs, less);
    r := s[..i] + [x] + s[i..];
  }

  lemma InsertedAscends<T(!new)>(s: seq<T>, x: T, i: nat, less: (T, T) -> bool)
    requires StrictOrder(less) && Ascending(s, less) && i <= |s|
    requires forall j :: 0 <= j < i ==> less(s[j], x)
    requires i < |s| ==> less(x, s[i])
    ensures Ascending(s[..i] + [x] + s[i..], less)
  {
    var r := s[..i] + [x] + s[i..];
    forall a, b | 0 <= a < b < |r| ensures less(r[a], r[b]) {
      if a == i && b > i + 1 { assert less(x, s[i]) && less(s[i], s[b - 1]); }
    }
  }

  lemma InsertedHolds<T(!new)>(s: seq<T>, x: T, i: nat, y: T)
    requires i <= |s|
    ensures y in s[..i] + [x] + s[i..] <==> y in s || y == x
  {
    assert s == s[..i] + s[i..];
  }

  lemma InsertedLists<T(!new)>(s: seq<T>, x: T, i: nat, xs: set<T>, less: (T, T) -> bool)
    requires StrictOrder(less) && Lists(s, xs, less) && i <= |s|
    requires forall j :: 0 <= j < i ==> less(s[j], x)
    requires i < |s| ==> less(x, s[i])
    ensures Lists(s[..i] + [x] + s[i..], xs + {x}, less)
  {
    InsertedAscends(s, x, i, less);
    forall y { InsertedHolds(s, x, i, y); }
  }

  method OrderBy<T(!new)>(xs: set<T>, less: (T, T) -> bool) returns (s: seq<T>)
    requires StrictOrder(less)
    ensures Lists(s, xs, less)
  {
    s := [];
    var left, done := xs, {};
    while left != {}
      invariant done + left == xs && done !! left && Lists(s, done, less)
      decreases left
    {
      var x :| x in left;
      s := Insert(s, x, done, less);
      left, done := left - {x}, done + {x};
    }
  }

  lemma {:induction false} ListingSize<T(!new)>(s: seq<T>, xs: set<T>, less: (T, T) -> bool)
    requires StrictOrder(less) && Lists(s, xs, less)
    ensures |s| == |xs|
    decreases |s|
  {
    if s == [] {
      assert forall x :: x in xs ==> x in s;
      assert xs == {};
    } else {
      TailLists(s, xs, less);
      ListingSize(s[1..], xs - {s[0]}, less);
    }
  }

  // ---- ORDER BY a number LIMIT k, over row positions ----

  function ByRank(rank: nat -> real): (nat, nat) -> bool {
    (i: nat, j: nat) => rank(i) < rank(j) || (rank(i) == rank(j) && i < j)
  }

  lemma RankOrder(rank: nat -> real)
    ensures StrictOrder(ByRank(rank))
  {
  }

  /** As many wanted positions as the limit allows, in ascending rank, and none left out that ranks below one taken. */
  ghost predicate Nearest(at: seq<nat>, wanted: set<nat>, rank: nat -> real, limit: nat) {
    && |at| == (if limit <= |wanted| then limit else |wanted|)
    && (forall i :: 0 <= i < |at| ==> at[i] in wanted)
    && (forall i, j :: 0 <= i < j < |at| ==> at[i] != at[j] && rank(at[i]) <= rank(at[j]))
    && (forall p, i :: p in wanted && p !in at && 0 <= i < |at| ==> rank(at[i]) <= rank(p))
  }

  lemma PrefixIsNearest(s: seq<nat>, wanted: set<nat>, rank: nat -> real, limit: nat)
    requires Lists(s, wanted, ByRank(rank))
    ensures Nearest(s[..if limit <= |s| then limit else |s|], wanted, rank, limit)
  {
    var k := if limit <= |s| then limit else |s|;
    RankOrder(rank);
    ListingSize(s, wanted, ByRank(rank));
    forall i | 0 <= i < k ensures s[i] in wanted {
      assert s[i] in s;
    }
    forall p, i | p in wanted && p !in s[..k] && 0 <= i < k ensures rank(s[i]) <= rank(p) {
      assert p in s;
      var j :| 0 <= j < |s| && s[j] == p;
      assert ByRank(rank)(s[i], s[j]);
    }
  }

  /** With room for all, all are taken. */
  lemma TakenAll(at: seq<nat>, wanted: set<nat>, rank: nat -> real, limit: nat)
    requires Nearest(at, wanted, rank, limit) && |wanted| <= limit
    ensures forall p :: p in wanted ==> p in at
  {
    var taken := set i | 0 <= i < |at| :: at[i];
    DistinctSize(at, taken);
    SubsetOfSize(taken, wanted);
    forall p | p in wanted ensures p in at { assert p in taken; }
  }

  lemma {:induction false} DistinctSize(at: seq<nat>, taken: set<nat>)
    requires taken == (set i | 0 <= i < |at| :: at[i]) && forall i, j :: 0 <= i < j < |at| ==> at[i] != at[j]
    ensures |taken| == |at|
  {
    if at != [] {
      var n := |at| - 1;
      var before := set i | 0 <= i < n :: at[..n][i];
      DistinctSize(at[..n], before);
      assert taken == before + {at[n]};
    }
  }

  lemma {:induction false} SubsetOfSize(a: set<nat>, b: set<nat>)
    requires a <= b && |a| == |b|
    ensures a == b
  {
    if a != {} {
      var x :| x in a;
      SubsetOfSize(a - {x}, b - {x});
    }
  }

  method Take(wanted: set<nat>, rank: nat -> real, limit: nat) returns (at: seq<nat>)
    ensures Nearest(at, wanted, rank, limit)
  {
    RankOrder(rank);
    var s := OrderBy(wanted, ByRank(rank));
    PrefixIsNearest(s, wanted, rank, limit);
    at := s[..if limit <= |s| then limit else |s|];
  }
}
