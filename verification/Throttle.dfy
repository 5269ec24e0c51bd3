/**
  The login throttle: one hourly bucket per key. It is proved to be the rate limiter with both
  windows set to the same hourly limit, so it inherits the sliding-bound characterisation.
*/
module Throttle {
  import opened TokenBucket
  import opened RateLimit

  type Levels = map<string, Level>

  function HourLimit(perHour: int): Limit { Limit(perHour, 3600.0) }

  /** One attempt: the bucket after refilling. */
  function RefilledFor(perHour: int, s: Levels, key: string, born: real, now: real): Level {
    var limit := HourLimit(perHour);
    Refill(if key in s then s[key] else Level(limit.Cap(), born), limit, now)
  }

  class Entry {
    var tokens: real
    var lastRefill: real
    ghost const key: string

    constructor (tokens: real, now: real, ghost key: string)
      ensures this.tokens == tokens && lastRefill == now && this.key == key
    {
      this.tokens, lastRefill, this.key := tokens, now, key;
    }
  }

  class LoginThrottle {
    const perHour: int
    var buckets: map<string, Entry>

    ghost predicate Valid()
      reads this
    {
      forall k :: k in buckets ==> buckets[k].key == k
    }

    ghost function State(): Levels
      reads this, buckets.Values
    {
      map k | k in buckets :: Level(buckets[k].tokens, buckets[k].lastRefill)
    }

    constructor (perHour: int, setting: int)
      ensures Valid() && State() == map[] && this.perHour == (if perHour != 0 then perHour else setting)
    {
      this.perHour := if perHour != 0 then perHour else setting;
      buckets := map[];
    }

    method Allow(key: string, born: real, now: real) returns (allowed: bool)
      requires Valid()
      modifies this, buckets.Values
      ensures Valid()
      ensures var b := RefilledFor(perHour, old(State()), key, born, now);
              && allowed == (b.tokens >= 1.0)
              && State() == old(State())[key := if allowed then Take(b) else b]
    {
      Ensure(key, born);
      assert buckets[key] in buckets.Values;
      assert State()[key] == Level(buckets[key].tokens, buckets[key].lastRefill);
      label made:
      allowed := Draw(buckets[key], now);
      OnlyOneChanged@made(key);
    }

    method Ensure(key: string, born: real)
      requires Valid()
      modifies this
      ensures Valid() && key in buckets && fresh(buckets.Values - old(buckets.Values))
      ensures State() == old(State())[key := if key in old(State()) then old(State())[key]
                                             else Level(HourLimit(perHour).Cap(), born)]
    {
      if key !in buckets {
        var bucket := new Entry(perHour as real, born, key);
        buckets := buckets[key := bucket];
      }
    }

    twostate lemma OnlyOneChanged(key: string)
      requires old(Valid()) && unchanged(this) && key in buckets
      requires forall b :: b in buckets.Values && b.key != key ==> unchanged(b)
      ensures State() == old(State())[key := Level(buckets[key].tokens, buckets[key].lastRefill)]
    {
      forall k | k in buckets && k != key ensures unchanged(buckets[k]) {
        assert buckets[k] in buckets.Values;
      }
    }

    method Draw(bucket: Entry, now: real) returns (allowed: bool)
      modifies bucket
      ensures var b := Refill(old(Level(bucket.tokens, bucket.lastRefill)), HourLimit(perHour), now);
              && allowed == (b.tokens >= 1.0)
              && Level(bucket.tokens, bucket.lastRefill) == if allowed then Take(b) else b
    {
      var capacity := perHour as real;
      var elapsed := now - bucket.lastRefill;
      bucket.tokens := Min(capacity, bucket.tokens + elapsed * (capacity / 3600.0));
      bucket.lastRefill := now;
      if bucket.tokens < 1.0 {
        return false;
      }
      bucket.tokens := bucket.tokens - 1.0;
      return true;
    }
  }

  datatype Attempt = Attempt(key: string, born: real, now: real)

  function Run(perHour: int, trace: seq<Attempt>): Levels {
    if trace == [] then map[]
    else
      var s, a := Run(perHour, trace[..|trace| - 1]), trace[|trace| - 1];
      var b := RefilledFor(perHour, s, a.key, a.born, a.now);
      s[a.key := if b.tokens >= 1.0 then Take(b) else b]
  }

  function AllowedAt(perHour: int, trace: seq<Attempt>, i: nat): bool
    requires i < |trace|
  {
    RefilledFor(perHour, Run(perHour, trace[..i]), trace[i].key, trace[i].born, trace[i].now).tokens >= 1.0
  }

  // ---- the throttle as a rate limiter with twin windows ----

  function Twin(perHour: int): Limits { Limits(HourLimit(perHour), HourLimit(perHour)) }

  function AsCall(a: Attempt): Call { Call(TokenId(a.key), Readings(a.born, a.born, a.now, a.now)) }

  function AsCalls(trace: seq<Attempt>): (calls: seq<Call>)
    ensures |calls| == |trace| && forall i :: 0 <= i < |trace| ==> calls[i] == AsCall(trace[i])
  {
    seq(|trace|, i requires 0 <= i < |trace| => AsCall(trace[i]))
  }

  ghost predicate SameState(s: Levels, t: Buckets) {
    forall k: string :: (k in s <==> TokenId(k) in t) && (k in s ==> t[TokenId(k)] == Pair(s[k], s[k]))
  }

  lemma SameAttempt(perHour: int, s: Levels, t: Buckets, a: Attempt)
    requires SameState(s, t)
    ensures var b := RefilledFor(perHour, s, a.key, a.born, a.now);
            && Answer(Twin(perHour), t, AsCall(a)).allowed == (b.tokens >= 1.0)
            && SameState(s[a.key := if b.tokens >= 1.0 then Take(b) else b], Step(Twin(perHour), t, AsCall(a)))
  {
  }

  lemma {:induction false} SameRun(perHour: int, trace: seq<Attempt>)
    ensures SameState(Run(perHour, trace), RateLimit.Run(Twin(perHour), AsCalls(trace)))
  {
    if trace == [] {
    } else {
      var n := |trace| - 1;
      SameRun(perHour, trace[..n]);
      assert AsCalls(trace)[..n] == AsCalls(trace[..n]);
      SameAttempt(perHour, Run(perHour, trace[..n]), RateLimit.Run(Twin(perHour), AsCalls(trace[..n])), trace[n]);
    }
  }

  /** The throttle decides every attempt as the twin-window limiter does. */
  lemma ThrottleIsHourlyLimiter(perHour: int, trace: seq<Attempt>, i: nat)
    requires i < |trace|
    ensures AllowedAt(perHour, trace, i) == VerdictAt(Twin(perHour), AsCalls(trace), i).allowed
  {
    SameRun(perHour, trace[..i]);
    assert AsCalls(trace)[..i] == AsCalls(trace[..i]);
    SameAttempt(perHour, Run(perHour, trace[..i]), RateLimit.Run(Twin(perHour), AsCalls(trace[..i])), trace[i]);
  }

  /** An attempt is allowed exactly when the hourly sliding bound admits it. */
  lemma ThrottleExactness(perHour: int, trace: seq<Attempt>, i: nat)
    requires Clocked(AsCalls(trace)) && i < |trace|
    ensures AllowedAt(perHour, trace, i) <==>
            WithinBound(Limit(perHour, 3600.0),
                        Accepted(Twin(perHour), AsCalls(trace[..i]), TokenId(trace[i].key), Hour), trace[i].now)
  {
    ThrottleIsHourlyLimiter(perHour, trace, i);
    Exactness(Twin(perHour), AsCalls(trace), i);
    assert AsCalls(trace)[..i] == AsCalls(trace[..i]);
    TwinClocks(perHour, trace[..i], TokenId(trace[i].key));
    assert Twin(perHour).Of(Hour) == HourLimit(perHour);
  }

  lemma {:induction false} TwinClocks(perHour: int, trace: seq<Attempt>, k: TokenId)
    ensures Accepted(Twin(perHour), AsCalls(trace), k, Minute) == Accepted(Twin(perHour), AsCalls(trace), k, Hour)
  {
    if trace == [] {
    } else {
      var n := |trace| - 1;
      TwinClocks(perHour, trace[..n], k);
      assert AsCalls(trace)[..n] == AsCalls(trace[..n]);
    }
  }
}
