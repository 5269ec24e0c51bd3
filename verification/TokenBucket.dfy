/** One token bucket, as arithmetic over `real` (the source uses floats; rounding is not modelled). */
module TokenBucket {

  // A bucket is refilled lazily, from the stored `tokens` and `last_refill`. The independent
  // definition it is measured against is the sliding bound `WithinBound`: a request at time `t` is
  // admissible when, for every earlier accepted request time `s`, the requests accepted since `s`,
  // this one included, number at most `capacity + rate * (t - s)`.

  datatype Level = Level(tokens: real, at: real)

  /** A configured limit: `capacity` tokens refilled over `interval` seconds. */
  datatype Limit = Limit(capacity: int, interval: real) {
    ghost predicate Valid() { interval > 0.0 }

    function Cap(): real { capacity as real }

    function Rate(): real
      requires interval > 0.0
    {
      capacity as real / interval
    }
  }

  function Min(x: real, y: real): real { if x <= y then x else y }

  function Refill(b: Level, limit: Limit, now: real): Level
    requires limit.interval > 0.0
  {
    Level(Min(limit.Cap(), b.tokens + (now - b.at) * limit.Rate()), now)
  }

  function Take(b: Level): Level { b.(tokens := b.tokens - 1.0) }

  // ---- the tokens left, as a function of the accepted requests alone ----

  /** Times measured in tokens: in one unit of drip time, one token flows in. */
  function Drip(a: seq<real>, rate: real): (d: seq<real>)
    ensures |d| == |a| && forall i :: 0 <= i < |a| ==> d[i] == a[i] * rate
  {
    seq(|a|, i requires 0 <= i < |a| => a[i] * rate)
  }

  /** Tokens at drip time `u` after requests were accepted at drip times `d` and no others. */
  function Remaining(cap: real, d: seq<real>, u: real): real {
    if d == [] then cap
    else
      var last := d[|d| - 1];
      Min(cap, Remaining(cap, d[..|d| - 1], last) - 1.0 + (u - last))
  }

  /** Tokens available at `t` after requests were accepted at the times `a` and no others. */
  function Tokens(limit: Limit, a: seq<real>, t: real): real
    requires limit.interval > 0.0
  {
    Remaining(limit.Cap(), Drip(a, limit.Rate()), t * limit.Rate())
  }

  /** Accepted requests at or after `s`. */
  function Since(a: seq<real>, s: real): nat {
    if a == [] then 0
    else Since(a[..|a| - 1], s) + (if a[|a| - 1] >= s then 1 else 0)
  }

  ghost predicate Nondecreasing(a: seq<real>) {
    forall i, j :: 0 <= i < j < |a| ==> a[i] <= a[j]
  }

  /** The sliding bound: what the limit promises, with no bucket in sight. */
  ghost predicate WithinBound(limit: Limit, a: seq<real>, t: real)
    requires limit.interval > 0.0
  {
    && 1.0 <= limit.Cap()
    && forall i :: 0 <= i < |a| ==>
         (Since(a, a[i]) + 1) as real <= limit.Cap() + limit.Rate() * (t - a[i])
  }

  lemma Distribute(r: real, x: real, y: real, z: real)
    ensures (x - y) * r + (y - z) * r == (x - z) * r
  {
  }

  lemma RateSign(limit: Limit, d: real)
    requires limit.Valid() && d >= 0.0
    ensures limit.capacity > 0 ==> limit.Rate() > 0.0 && d * limit.Rate() >= 0.0 && (d > 0.0 ==> d * limit.Rate() > 0.0)
    ensures limit.capacity < 0 ==> limit.Rate() < 0.0 && d * limit.Rate() <= 0.0
    ensures limit.capacity == 0 ==> limit.Rate() == 0.0
  {
    assert limit.Rate() * limit.interval == limit.Cap();
  }

  /** What the window opened by the `i`-th accepted request leaves at drip time `u`. */
  function Slack(cap: real, d: seq<real>, u: real, i: nat): real
    requires i < |d|
  {
    cap + (u - d[i]) - (|d| - i) as real
  }

  /** The lazily refilled level is the minimum over all windows. */
  lemma {:induction false} RemainingAtLeast(cap: real, d: seq<real>, u: real, x: real)
    ensures Remaining(cap, d, u) >= x <==>
            cap >= x && forall i :: 0 <= i < |d| ==> Slack(cap, d, u, i) >= x
  {
    if d != [] {
      var n := |d| - 1;
      var d', last := d[..n], d[n];
      RemainingAtLeast(cap, d', last, x + 1.0 - (u - last));
      assert forall i :: 0 <= i < n ==> Slack(cap, d, u, i) - x == Slack(cap, d', last, i) - (x + 1.0 - (u - last));
      assert Slack(cap, d, u, n) == cap + (u - last) - 1.0;
    }
  }

  lemma {:induction false} SinceSorted(a: seq<real>, s: real, f: nat)
    requires Nondecreasing(a) && f <= |a|
    requires forall i :: 0 <= i < |a| ==> (a[i] >= s <==> f <= i)
    ensures Since(a, s) == |a| - f
  {
    if a != [] {
      var n := |a| - 1;
      SinceSorted(a[..n], s, if f <= n then f else n);
    }
  }

  /** The first of the requests accepted at the same time as the `i`-th opens the fullest window. */
  lemma FirstOfTies(a: seq<real>, i: nat) returns (f: nat)
    requires Nondecreasing(a) && i < |a|
    ensures f <= i && a[f] == a[i] && Since(a, a[i]) == |a| - f
  {
    f := i;
    while f > 0 && a[f - 1] == a[i]
      invariant 0 <= f <= i && a[f] == a[i]
    {
      f := f - 1;
    }
    SinceSorted(a, a[i], f);
  }

  /** Room left in the window since the `i`-th accepted request, counted by time. */
  function Room(limit: Limit, a: seq<real>, t: real, i: nat): real
    requires limit.interval > 0.0 && i < |a|
  {
    limit.Cap() + limit.Rate() * (t - a[i]) - Since(a, a[i]) as real
  }

  /** Counted by time, a window has the slack of its first request, and no request in it has less. */
  lemma RoomIsSlack(limit: Limit, a: seq<real>, t: real, i: nat) returns (f: nat)
    requires limit.interval > 0.0 && Nondecreasing(a) && i < |a|
    ensures f < |a|
    ensures var d, u := Drip(a, limit.Rate()), t * limit.Rate();
            Room(limit, a, t, i) == Slack(limit.Cap(), d, u, f) <= Slack(limit.Cap(), d, u, i)
  {
    f := FirstOfTies(a, i);
    assert limit.Rate() * (t - a[i]) == t * limit.Rate() - a[i] * limit.Rate();
  }

  /** The bucket test `tokens >= 1` is exactly the sliding bound. */
  lemma BucketIsSlidingBound(limit: Limit, a: seq<real>, t: real)
    requires limit.interval > 0.0 && Nondecreasing(a)
    ensures Tokens(limit, a, t) >= 1.0 <==> WithinBound(limit, a, t)
  {
    var d, u := Drip(a, limit.Rate()), t * limit.Rate();
    RemainingAtLeast(limit.Cap(), d, u, 1.0);
    if Tokens(limit, a, t) >= 1.0 {
      forall i | 0 <= i < |a|
        ensures (Since(a, a[i]) + 1) as real <= limit.Cap() + limit.Rate() * (t - a[i])
      {
        var f := RoomIsSlack(limit, a, t, i);
        assert Room(limit, a, t, i) >= 1.0;
      }
    } else if WithinBound(limit, a, t) {
      var i :| 0 <= i < |d| && Slack(limit.Cap(), d, u, i) < 1.0;
      var f := RoomIsSlack(limit, a, t, i);
      assert false;
    }
  }

  // ---- stored levels ----

  /** From `b.at` on, the stored level tells the same story as the accepted times `a`. */
  ghost predicate Represents(b: Level, limit: Limit, a: seq<real>)
    requires limit.interval > 0.0
  {
    forall t :: t >= b.at ==> Refill(b, limit, t).tokens == Tokens(limit, a, t)
  }

  lemma MinTwice(cap: real, tokens: real, x: real, y: real)
    requires y >= 0.0 || (tokens <= cap && x <= 0.0 && y <= 0.0)
    ensures Min(cap, Min(cap, tokens + x) + y) == Min(cap, tokens + (x + y))
  {
  }

  /** Refilling to `t1` and then to `t2` is refilling to `t2`. A stored level never exceeds the capacity. */
  lemma RefillTwice(b: Level, limit: Limit, t1: real, t2: real)
    requires limit.Valid() && (limit.capacity >= 0 || b.tokens <= limit.Cap()) && b.at <= t1 <= t2
    ensures Refill(Refill(b, limit, t1), limit, t2) == Refill(b, limit, t2)
  {
    var r := limit.Rate();
    GainSign(limit, t2 - t1);
    GainSign(limit, t1 - b.at);
    Distribute(r, t2, t1, b.at);
    MinTwice(limit.Cap(), b.tokens, (t1 - b.at) * r, (t2 - t1) * r);
  }

  lemma GainSign(limit: Limit, d: real)
    requires limit.Valid() && d >= 0.0
    ensures if limit.capacity >= 0 then d * limit.Rate() >= 0.0 else d * limit.Rate() <= 0.0
  {
    RateSign(limit, d);
  }

  lemma FreshRepresents(limit: Limit, born: real)
    requires limit.Valid() && limit.capacity >= 0
    ensures Represents(Level(limit.Cap(), born), limit, [])
  {
    forall t | t >= born
      ensures Refill(Level(limit.Cap(), born), limit, t).tokens == Tokens(limit, [], t)
    {
      RateSign(limit, t - born);
    }
  }

  lemma RefilledRepresents(b: Level, limit: Limit, a: seq<real>, now: real)
    requires limit.Valid() && (limit.capacity >= 0 || b.tokens <= limit.Cap()) && b.at <= now && Represents(b, limit, a)
    ensures Represents(Refill(b, limit, now), limit, a)
  {
    forall t | t >= now
      ensures Refill(Refill(b, limit, now), limit, t).tokens == Tokens(limit, a, t)
    {
      RefillTwice(b, limit, now, t);
    }
  }

  lemma DripSnoc(a: seq<real>, x: real, rate: real)
    ensures Drip(a + [x], rate) == Drip(a, rate) + [x * rate]
  {
    forall i | 0 <= i <= |a|
      ensures Drip(a + [x], rate)[i] == (Drip(a, rate) + [x * rate])[i]
    {
      assert (a + [x])[i] == if i < |a| then a[i] else x;
    }
  }

  lemma TokensSnoc(limit: Limit, a: seq<real>, now: real, t: real)
    requires limit.interval > 0.0
    ensures Tokens(limit, a + [now], t) == Min(limit.Cap(), Tokens(limit, a, now) - 1.0 + (t - now) * limit.Rate())
  {
    var r := limit.Rate();
    var d, d' := Drip(a, r), Drip(a + [now], r);
    DripSnoc(a, now, r);
    assert d'[..|d'| - 1] == d && d'[|d'| - 1] == now * r;
    assert (t - now) * r == t * r - now * r;
    assert Remaining(limit.Cap(), d', t * r)
        == Min(limit.Cap(), Remaining(limit.Cap(), d, now * r) - 1.0 + (t * r - now * r));
  }

  lemma RefillValue(b: Level, limit: Limit, t: real)
    requires limit.Valid()
    ensures Refill(b, limit, t).tokens == Min(limit.Cap(), b.tokens + (t - b.at) * limit.Rate())
  {
  }

  lemma TakenRepresents(b: Level, limit: Limit, a: seq<real>, now: real)
    requires limit.Valid() && b.at <= now && Represents(b, limit, a)
    ensures Represents(Take(Refill(b, limit, now)), limit, a + [now])
  {
    var taken := Take(Refill(b, limit, now));
    assert taken.tokens == Tokens(limit, a, now) - 1.0 && taken.at == now;
    forall t | t >= now
      ensures Refill(taken, limit, t).tokens == Tokens(limit, a + [now], t)
    {
      TokensSnoc(limit, a, now, t);
      RefillValue(taken, limit, t);
    }
  }

  // ---- a negative capacity: the bucket only drains, from the moment it is made ----

  function Drained(limit: Limit, born: real, t: real): real
    requires limit.interval > 0.0
  {
    limit.Cap() + (t - born) * limit.Rate()
  }

  lemma DrainsOn(limit: Limit, born: real, u: real, t: real)
    requires limit.Valid() && limit.capacity < 0 && born <= u <= t
    ensures Refill(Level(Drained(limit, born, u), u), limit, t) == Level(Drained(limit, born, t), t)
    ensures Drained(limit, born, t) < 0.0
  {
    RateSign(limit, t - born);
    Distribute(limit.Rate(), t, u, born);
  }
}
