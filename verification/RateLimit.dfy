/** The per-token rate limiter: two coupled buckets, one per minute and one per hour. */
module RateLimit {
  import opened Prelude
  import opened TokenBucket

  // `RateLimiter` is the source's class. `Step` is what one `Check` does to the two dictionaries,
  // and the lemmas are about whole traces of checks. Every clock reading the source takes is kept
  // apart: a check reads the clock up to four times.

  /** What a bucket is kept for: a token id, or a login key. */
  datatype TokenId = TokenId(text: string)

  datatype Window = Minute | Hour

  datatype Limits = Limits(minute: Limit, hour: Limit) {
    function Of(w: Window): Limit { if w.Minute? then minute else hour }

    ghost predicate Valid() { minute.Valid() && hour.Valid() }

    ghost predicate Positive() { Valid() && minute.capacity > 0 && hour.capacity > 0 }

    ghost predicate NonNegative() { Valid() && minute.capacity >= 0 && hour.capacity >= 0 }

    /** The window that decides when a limit is not positive: its bucket never holds a token. */
    function Gate(): Window { if minute.capacity <= 0 then Minute else Hour }
  }

  /** The clock readings of one check, in the order they are taken. */
  datatype Readings = Readings(minuteBorn: real, hourBorn: real, minuteNow: real, hourNow: real) {
    function Born(w: Window): real { if w.Minute? then minuteBorn else hourBorn }

    function Now(w: Window): real { if w.Minute? then minuteNow else hourNow }

    ghost predicate Ordered() { minuteBorn <= hourBorn <= minuteNow <= hourNow }
  }

  datatype Pair = Pair(minute: Level, hour: Level) {
    function Of(w: Window): Level { if w.Minute? then minute else hour }
  }

  /** No retry value: with a limit of zero the division by the rate raises ZeroDivisionError. */
  datatype Verdict = Verdict(allowed: bool, retry: Option<real>)

  datatype Call = Call(token: TokenId, r: Readings)

  type Buckets = map<TokenId, Pair>

  function Fresh(lim: Limits, r: Readings): Pair {
    Pair(Level(lim.minute.Cap(), r.minuteBorn), Level(lim.hour.Cap(), r.hourBorn))
  }

  function Lookup(lim: Limits, s: Buckets, c: Call): Pair {
    if c.token in s then s[c.token] else Fresh(lim, c.r)
  }

  function Refilled(lim: Limits, p: Pair, r: Readings): Pair
    requires lim.Valid()
  {
    Pair(Refill(p.minute, lim.minute, r.minuteNow), Refill(p.hour, lim.hour, r.hourNow))
  }

  function Judge(lim: Limits, p: Pair): Verdict
    requires lim.Valid()
  {
    if p.minute.tokens < 1.0 then Verdict(false, Wait(lim.minute, p.minute.tokens))
    else if p.hour.tokens < 1.0 then Verdict(false, Wait(lim.hour, p.hour.tokens))
    else Verdict(true, Some(0.0))
  }

  function Wait(limit: Limit, tokens: real): Option<real>
    requires limit.Valid()
  {
    RateNonzero(limit);
    if limit.capacity == 0 then None else Some((1.0 - tokens) / limit.Rate())
  }

  lemma RateNonzero(limit: Limit)
    requires limit.Valid()
    ensures limit.capacity == 0 <==> limit.Rate() == 0.0
  {
    RateSign(limit, 0.0);
  }

  function Answer(lim: Limits, s: Buckets, c: Call): Verdict
    requires lim.Valid()
  {
    Judge(lim, Refilled(lim, Lookup(lim, s, c), c.r))
  }

  function Step(lim: Limits, s: Buckets, c: Call): Buckets
    requires lim.Valid()
  {
    var p := Refilled(lim, Lookup(lim, s, c), c.r);
    s[c.token := if Judge(lim, p).allowed then Pair(Take(p.minute), Take(p.hour)) else p]
  }

  lemma StepAfterLookup(lim: Limits, s: Buckets, c: Call)
    requires lim.Valid()
    ensures var s' := s[c.token := Lookup(lim, s, c)];
            Step(lim, s', c) == Step(lim, s, c) && Answer(lim, s', c) == Answer(lim, s, c)
  {
  }

  // ---- the class ----

  class Bucket {
    var tokens: real
    var lastRefill: real
    ghost const home: (Window, TokenId)

    constructor (tokens: real, now: real, ghost home: (Window, TokenId))
      ensures this.tokens == tokens && lastRefill == now && this.home == home
    {
      this.tokens, lastRefill, this.home := tokens, now, home;
    }

    function Level(): Level
      reads this
    {
      TokenBucket.Level(tokens, lastRefill)
    }
  }

  class RateLimiter {
    const limits: Limits
    var minuteBuckets: map<TokenId, Bucket>
    var hourBuckets: map<TokenId, Bucket>

    /** The two dictionaries have the same keys, and no bucket is stored twice. */
    ghost predicate Valid()
      reads this
    {
      && limits.Valid()
      && minuteBuckets.Keys == hourBuckets.Keys
      && (forall k :: k in minuteBuckets ==> minuteBuckets[k].home == (Minute, k))
      && (forall k :: k in hourBuckets ==> hourBuckets[k].home == (Hour, k))
    }

    ghost function Owned(): set<Bucket>
      reads this
    {
      minuteBuckets.Values + hourBuckets.Values
    }

    ghost function State(): Buckets
      requires Valid()
      reads this, Owned()
    {
      map k | k in minuteBuckets :: Pair(minuteBuckets[k].Level(), hourBuckets[k].Level())
    }

    /** A missing or zero argument falls back to the configured limit. */
    constructor (perMinute: int, perHour: int, minuteSetting: int, hourSetting: int)
      ensures Valid() && State() == map[] && Owned() == {}
      ensures limits.minute == Limit(if perMinute != 0 then perMinute else minuteSetting, 60.0)
      ensures limits.hour == Limit(if perHour != 0 then perHour else hourSetting, 3600.0)
    {
      limits := Limits(Limit(if perMinute != 0 then perMinute else minuteSetting, 60.0),
                       Limit(if perHour != 0 then perHour else hourSetting, 3600.0));
      minuteBuckets, hourBuckets := map[], map[];
    }

    method RefillBucket(bucket: Bucket, limit: Limit, now: real)
      requires limit.Valid()
      modifies bucket
      ensures bucket.Level() == Refill(old(bucket.Level()), limit, now)
    {
      var elapsed := now - bucket.lastRefill;
      bucket.tokens := Min(limit.Cap(), bucket.tokens + elapsed * limit.Rate());
      bucket.lastRefill := now;
    }

    /** Creates the buckets of a token seen for the first time. */
    method CreateBuckets(tokenId: TokenId, r: Readings)
      requires Valid() && tokenId !in minuteBuckets
      modifies this
      ensures Valid() && tokenId in minuteBuckets
      ensures fresh(minuteBuckets[tokenId]) && fresh(hourBuckets[tokenId])
      ensures minuteBuckets == old(minuteBuckets)[tokenId := minuteBuckets[tokenId]]
      ensures hourBuckets == old(hourBuckets)[tokenId := hourBuckets[tokenId]]
      ensures State() == old(State())[tokenId := Fresh(limits, r)]
    {
      var mb := new Bucket(limits.minute.Cap(), r.minuteBorn, (Minute, tokenId));
      var hb := new Bucket(limits.hour.Cap(), r.hourBorn, (Hour, tokenId));
      minuteBuckets := minuteBuckets[tokenId := mb];
      hourBuckets := hourBuckets[tokenId := hb];
      OneAdded(tokenId);
    }

    /** Adding the two buckets of one token adds one entry to the state. */
    twostate lemma OneAdded(k: TokenId)
      requires old(Valid()) && Valid() && k !in old(minuteBuckets) && k in minuteBuckets
      requires minuteBuckets == old(minuteBuckets)[k := minuteBuckets[k]]
      requires hourBuckets == old(hourBuckets)[k := hourBuckets[k]]
      requires forall b :: b in old(Owned()) ==> unchanged(b)
      ensures State() == old(State())[k := Pair(minuteBuckets[k].Level(), hourBuckets[k].Level())]
    {
      forall j | j in old(minuteBuckets)
        ensures minuteBuckets[j].Level() == old(minuteBuckets[j].Level())
        ensures hourBuckets[j].Level() == old(hourBuckets[j].Level())
      {
        assert old(minuteBuckets[j]) in old(Owned()) && old(hourBuckets[j]) in old(Owned());
      }
    }

    method Ensure(tokenId: TokenId, r: Readings)
      requires Valid()
      modifies this
      ensures Valid() && tokenId in minuteBuckets && fresh(Owned() - old(Owned()))
      ensures State() == old(State())[tokenId := Lookup(limits, old(State()), Call(tokenId, r))]
    {
      if tokenId !in minuteBuckets {
        CreateBuckets(tokenId, r);
      }
    }

    method Check(tokenId: TokenId, r: Readings) returns (allowed: bool, retry: Option<real>)
      requires Valid()
      modifies this, Owned()
      ensures Valid() && fresh(Owned() - old(Owned()))
      ensures State() == Step(limits, old(State()), Call(tokenId, r))
      ensures Verdict(allowed, retry) == Answer(limits, old(State()), Call(tokenId, r))
    {
      StepAfterLookup(limits, State(), Call(tokenId, r));
      Ensure(tokenId, r);
      assert minuteBuckets[tokenId] in Owned() && hourBuckets[tokenId] in Owned();
      allowed, retry := DrawFor(tokenId, r);
    }

    method DrawFor(tokenId: TokenId, r: Readings) returns (allowed: bool, retry: Option<real>)
      requires Valid() && tokenId in minuteBuckets
      modifies minuteBuckets[tokenId], hourBuckets[tokenId]
      ensures State() == Step(limits, old(State()), Call(tokenId, r))
      ensures Verdict(allowed, retry) == Answer(limits, old(State()), Call(tokenId, r))
    {
      allowed, retry := Draw(minuteBuckets[tokenId], hourBuckets[tokenId], r);
      OnlyOneChanged(tokenId);
    }

    /** Changing the two buckets of one token changes one entry of the state. */
    twostate lemma OnlyOneChanged(k: TokenId)
      requires old(Valid()) && unchanged(this) && k in minuteBuckets
      requires forall b :: b in Owned() && b.home.1 != k ==> unchanged(b)
      ensures State() == old(State())[k := Pair(minuteBuckets[k].Level(), hourBuckets[k].Level())]
    {
      forall j | j in minuteBuckets && j != k
        ensures minuteBuckets[j].Level() == old(minuteBuckets[j].Level())
        ensures hourBuckets[j].Level() == old(hourBuckets[j].Level())
      {
        assert minuteBuckets[j] in Owned() && hourBuckets[j] in Owned();
      }
    }

    /** Refills both buckets, then takes a token from each or says how long to wait for the first that has none. */
    method Draw(mb: Bucket, hb: Bucket, r: Readings) returns (allowed: bool, retry: Option<real>)
      requires limits.Valid() && mb != hb
      modifies mb, hb
      ensures var p := Refilled(limits, old(Pair(mb.Level(), hb.Level())), r);
              && Verdict(allowed, retry) == Judge(limits, p)
              && mb.Level() == (if allowed then Take(p.minute) else p.minute)
              && hb.Level() == (if allowed then Take(p.hour) else p.hour)
    {
      RefillBucket(mb, limits.minute, r.minuteNow);
      RefillBucket(hb, limits.hour, r.hourNow);
      RateNonzero(limits.minute);
      RateNonzero(limits.hour);
      if mb.tokens < 1.0 {
        return false, if limits.minute.capacity == 0 then None else Some((1.0 - mb.tokens) / limits.minute.Rate());
      }
      if hb.tokens < 1.0 {
        return false, if limits.hour.capacity == 0 then None else Some((1.0 - hb.tokens) / limits.hour.Rate());
      }
      mb.tokens := mb.tokens - 1.0;
      hb.tokens := hb.tokens - 1.0;
      return true, Some(0.0);
    }
  }

  // ---- traces ----

  function Run(lim: Limits, trace: seq<Call>): Buckets
    requires lim.Valid()
  {
    if trace == [] then map[]
    else Step(lim, Run(lim, trace[..|trace| - 1]), trace[|trace| - 1])
  }

  /** The verdict given to the `i`-th call of the trace. */
  function VerdictAt(lim: Limits, trace: seq<Call>, i: nat): Verdict
    requires lim.Valid() && i < |trace|
  {
    Answer(lim, Run(lim, trace[..i]), trace[i])
  }

  /** The times, on the clock of window `w`, at which calls for `k` were allowed. */
  function Accepted(lim: Limits, trace: seq<Call>, k: TokenId, w: Window): seq<real>
    requires lim.Valid()
  {
    if trace == [] then []
    else
      var n := |trace| - 1;
      Accepted(lim, trace[..n], k, w) +
      (if trace[n].token == k && VerdictAt(lim, trace, n).allowed then [trace[n].r.Now(w)] else [])
  }

  /** The clock never runs backwards. */
  ghost predicate Clocked(trace: seq<Call>) {
    && (forall i :: 0 <= i < |trace| ==> trace[i].r.Ordered())
    && (forall i, j :: 0 <= i < j < |trace| ==> trace[i].r.hourNow <= trace[j].r.minuteBorn)
  }

  // ---- the trace invariant ----

  function StoredAt(s: Buckets, k: TokenId, w: Window): Option<Level> {
    if k in s then Some(s[k].Of(w)) else None
  }

  /** What is stored for a token up to time `end` stands for its accepted calls. */
  ghost predicate Stands(stored: Option<Level>, limit: Limit, a: seq<real>, end: real)
    requires limit.interval > 0.0
  {
    match stored
    case None => a == []
    case Some(b) => Represents(b, limit, a) && b.at <= end
  }

  ghost predicate Tracks(lim: Limits, trace: seq<Call>, k: TokenId, w: Window, end: real)
    requires lim.Valid()
  {
    Stands(StoredAt(Run(lim, trace), k, w), lim.Of(w), Accepted(lim, trace, k, w), end)
  }

  lemma {:induction false} AcceptedInOrder(lim: Limits, trace: seq<Call>, k: TokenId, w: Window)
    requires lim.Valid() && Clocked(trace)
    ensures var a := Accepted(lim, trace, k, w);
            && Nondecreasing(a)
            && forall i :: 0 <= i < |a| ==> trace != [] && a[i] <= trace[|trace| - 1].r.Now(w)
  {
    if trace != [] {
      var n := |trace| - 1;
      AcceptedInOrder(lim, trace[..n], k, w);
    }
  }

  /** What the next call for `k` finds, given the accepted calls alone. */
  lemma LookupRepresents(lim: Limits, s: Buckets, a: seq<real>, c: Call, w: Window)
    requires lim.Valid() && lim.Of(w).capacity >= 0
    requires c.r.Ordered() && Stands(StoredAt(s, c.token, w), lim.Of(w), a, c.r.minuteBorn)
    ensures var p := Lookup(lim, s, c).Of(w); Represents(p, lim.Of(w), a) && p.at <= c.r.Now(w)
  {
    if c.token !in s {
      FreshRepresents(lim.Of(w), c.r.Born(w));
    }
  }

  lemma ClockedPrefix(trace: seq<Call>, n: nat)
    requires Clocked(trace) && n <= |trace|
    ensures Clocked(trace[..n])
  {
  }

  /** One call for `k` keeps the stored pair in step with the accepted calls. */
  lemma OwnCallStands(lim: Limits, s: Buckets, a: seq<real>, c: Call, w: Window)
    requires lim.Valid() && lim.Of(w).capacity >= 0
    requires c.r.Ordered() && Stands(StoredAt(s, c.token, w), lim.Of(w), a, c.r.minuteBorn)
    ensures Stands(StoredAt(Step(lim, s, c), c.token, w), lim.Of(w),
                   a + if Answer(lim, s, c).allowed then [c.r.Now(w)] else [], c.r.hourNow)
  {
    LookupRepresents(lim, s, a, c, w);
    var p := Lookup(lim, s, c).Of(w);
    RefilledRepresents(p, lim.Of(w), a, c.r.Now(w));
    TakenRepresents(p, lim.Of(w), a, c.r.Now(w));
    assert a + [] == a;
  }

  lemma RunSnoc(lim: Limits, t: seq<Call>, c: Call, k: TokenId, w: Window)
    requires lim.Valid()
    ensures Run(lim, t + [c]) == Step(lim, Run(lim, t), c)
    ensures VerdictAt(lim, t + [c], |t|) == Answer(lim, Run(lim, t), c)
    ensures Accepted(lim, t + [c], k, w) == Accepted(lim, t, k, w) +
            if c.token == k && Answer(lim, Run(lim, t), c).allowed then [c.r.Now(w)] else []
  {
    assert (t + [c])[..|t|] == t && (t + [c])[|t|] == c;
  }

  ghost predicate EndsBy(trace: seq<Call>, end: real) {
    trace != [] ==> trace[|trace| - 1].r.hourNow <= end
  }

  lemma {:induction false} TracksAlways(lim: Limits, trace: seq<Call>, k: TokenId, w: Window, end: real)
    requires lim.Valid() && lim.Of(w).capacity >= 0 && Clocked(trace) && EndsBy(trace, end)
    ensures Tracks(lim, trace, k, w, end)
  {
    if trace == [] {
    } else {
      var n := |trace| - 1;
      var t, c := trace[..n], trace[n];
      assert t + [c] == trace;
      ClockedPrefix(trace, n);
      TracksAlways(lim, t, k, w, c.r.minuteBorn);
      RunSnoc(lim, t, c, k, w);
      if c.token == k {
        OwnCallStands(lim, Run(lim, t), Accepted(lim, t, k, w), c, w);
      } else {
        assert Accepted(lim, trace, k, w) == Accepted(lim, t, k, w);
        assert StoredAt(Run(lim, trace), k, w) == StoredAt(Run(lim, t), k, w);
        assert c.r.Ordered();
      }
    }
  }

  // ---- a negative limit ----

  /** When the token's bucket of window `w` was made: at its first call. */
  function BornAt(trace: seq<Call>, k: TokenId, w: Window): Option<real> {
    if trace == [] then None
    else
      var n := |trace| - 1;
      var before := BornAt(trace[..n], k, w);
      if before.Some? || trace[n].token != k then before else Some(trace[n].r.Born(w))
  }

  lemma {:induction false} BornConcat(x: seq<Call>, y: seq<Call>, k: TokenId, w: Window)
    ensures BornAt(x + y, k, w) == if BornAt(x, k, w).Some? then BornAt(x, k, w) else BornAt(y, k, w)
  {
    if y == [] {
      assert x + y == x;
    } else {
      BornConcat(x, y[..|y| - 1], k, w);
      assert (x + y)[..|x + y| - 1] == x + y[..|y| - 1];
    }
  }

  /** What a negative limit stores for a token. */
  ghost predicate Drains(stored: Option<Level>, limit: Limit, born: Option<real>, end: real)
    requires limit.interval > 0.0
  {
    match (stored, born)
    case (None, None) => true
    case (Some(b), Some(t)) => b.tokens == Drained(limit, t, b.at) && t <= b.at <= end
    case _ => false
  }

  lemma OwnCallDrains(lim: Limits, s: Buckets, born: Option<real>, c: Call, w: Window)
    requires lim.Valid() && lim.Of(w).capacity < 0 && c.r.Ordered()
    requires Drains(StoredAt(s, c.token, w), lim.Of(w), born, c.r.minuteBorn)
    ensures var b, t := Refill(Lookup(lim, s, c).Of(w), lim.Of(w), c.r.Now(w)), if born.Some? then born.value else c.r.Born(w);
            && b == Level(Drained(lim.Of(w), t, c.r.Now(w)), c.r.Now(w)) && b.tokens < 0.0
            && !Answer(lim, s, c).allowed && Drains(StoredAt(Step(lim, s, c), c.token, w), lim.Of(w), Some(t), c.r.hourNow)
  {
    var t := if born.Some? then born.value else c.r.Born(w);
    var p := Lookup(lim, s, c).Of(w);
    assert p == Level(Drained(lim.Of(w), t, p.at), p.at);
    DrainsOn(lim.Of(w), t, p.at, c.r.Now(w));
  }

  lemma {:induction false} DrainsAlways(lim: Limits, trace: seq<Call>, k: TokenId, w: Window, end: real)
    requires lim.Valid() && lim.Of(w).capacity < 0 && Clocked(trace) && EndsBy(trace, end)
    ensures Drains(StoredAt(Run(lim, trace), k, w), lim.Of(w), BornAt(trace, k, w), end)
  {
    if trace == [] {
    } else {
      var n := |trace| - 1;
      var t, c := trace[..n], trace[n];
      assert t + [c] == trace;
      ClockedPrefix(trace, n);
      DrainsAlways(lim, t, k, w, c.r.minuteBorn);
      RunSnoc(lim, t, c, k, w);
      if c.token == k {
        OwnCallDrains(lim, Run(lim, t), BornAt(t, k, w), c, w);
      } else {
        assert StoredAt(Run(lim, trace), k, w) == StoredAt(Run(lim, t), k, w);
        assert c.r.Ordered();
      }
    }
  }

  // ---- exactness ----

  /** The tokens a call finds, from the accepted calls alone, or for a negative limit from the age of the bucket. */
  function Held(lim: Limits, trace: seq<Call>, c: Call, w: Window): real
    requires lim.Valid()
  {
    if lim.Of(w).capacity >= 0 then Tokens(lim.Of(w), Accepted(lim, trace, c.token, w), c.r.Now(w))
    else
      var born := BornAt(trace, c.token, w);
      Drained(lim.Of(w), if born.Some? then born.value else c.r.Born(w), c.r.Now(w))
  }

  lemma {:induction false} FoundIsHeld(lim: Limits, trace: seq<Call>, c: Call, w: Window)
    requires lim.Valid() && Clocked(trace + [c])
    ensures Refill(Lookup(lim, Run(lim, trace), c).Of(w), lim.Of(w), c.r.Now(w)).tokens == Held(lim, trace, c, w)
  {
    assert (trace + [c])[..|trace|] == trace && (trace + [c])[|trace|] == c;
    ClockedPrefix(trace + [c], |trace|);
    assert EndsBy(trace, c.r.minuteBorn) by {
      if trace != [] { assert (trace + [c])[|trace| - 1] == trace[|trace| - 1]; }
    }
    if lim.Of(w).capacity >= 0 {
      TracksAlways(lim, trace, c.token, w, c.r.minuteBorn);
      LookupRepresents(lim, Run(lim, trace), Accepted(lim, trace, c.token, w), c, w);
    } else {
      DrainsAlways(lim, trace, c.token, w, c.r.minuteBorn);
      OwnCallDrains(lim, Run(lim, trace), BornAt(trace, c.token, w), c, w);
    }
  }

  /** Decision and retry value without the stored buckets, whatever the limits. */
  lemma AnswerFromHistory(lim: Limits, trace: seq<Call>, c: Call)
    requires lim.Valid() && Clocked(trace + [c])
    ensures Answer(lim, Run(lim, trace), c)
         == Judge(lim, Pair(Level(Held(lim, trace, c, Minute), c.r.minuteNow), Level(Held(lim, trace, c, Hour), c.r.hourNow)))
  {
    FoundIsHeld(lim, trace, c, Minute);
    FoundIsHeld(lim, trace, c, Hour);
    var p := Lookup(lim, Run(lim, trace), c);
    assert p.Of(Minute) == p.minute && p.Of(Hour) == p.hour;
  }

  lemma HeldIsBound(lim: Limits, trace: seq<Call>, c: Call, w: Window)
    requires lim.Valid() && Clocked(trace + [c])
    ensures Held(lim, trace, c, w) >= 1.0 <==> WithinBound(lim.Of(w), Accepted(lim, trace, c.token, w), c.r.Now(w))
  {
    assert (trace + [c])[..|trace|] == trace && (trace + [c])[|trace|] == c;
    ClockedPrefix(trace + [c], |trace|);
    if lim.Of(w).capacity >= 0 {
      AcceptedInOrder(lim, trace, c.token, w);
      BucketIsSlidingBound(lim.Of(w), Accepted(lim, trace, c.token, w), c.r.Now(w));
    } else {
      FoundIsHeld(lim, trace, c, w);
      DrainedHoldsNothing(lim, trace, c, w);
    }
  }

  lemma DrainedHoldsNothing(lim: Limits, trace: seq<Call>, c: Call, w: Window)
    requires lim.Valid() && lim.Of(w).capacity < 0 && Clocked(trace + [c])
    ensures Held(lim, trace, c, w) < 0.0
  {
    assert (trace + [c])[..|trace|] == trace && (trace + [c])[|trace|] == c;
    ClockedPrefix(trace + [c], |trace|);
    assert EndsBy(trace, c.r.minuteBorn) by {
      if trace != [] { assert (trace + [c])[|trace| - 1] == trace[|trace| - 1]; }
    }
    DrainsAlways(lim, trace, c.token, w, c.r.minuteBorn);
    OwnCallDrains(lim, Run(lim, trace), BornAt(trace, c.token, w), c, w);
  }

  /** In every trace, and for every limits, a check is allowed, at once, exactly when both sliding bounds admit it. */
  lemma Exactness(lim: Limits, trace: seq<Call>, i: nat)
    requires lim.Valid() && Clocked(trace) && i < |trace|
    ensures VerdictAt(lim, trace, i).allowed <==>
            forall w: Window :: WithinBound(lim.Of(w), Accepted(lim, trace[..i], trace[i].token, w), trace[i].r.Now(w))
    ensures VerdictAt(lim, trace, i).allowed ==> VerdictAt(lim, trace, i).retry == Some(0.0)
  {
    var t, c := trace[..i], trace[i];
    assert t + [c] == trace[..i + 1];
    ClockedPrefix(trace, i + 1);
    AnswerFromHistory(lim, t, c);
    forall w: Window
      ensures Held(lim, t, c, w) >= 1.0 <==> WithinBound(lim.Of(w), Accepted(lim, t, c.token, w), c.r.Now(w))
    {
      HeldIsBound(lim, t, c, w);
    }
    assert lim.Of(Minute) == lim.minute && lim.Of(Hour) == lim.hour;
  }

  // ---- one token's decisions depend on its own calls ----

  function Only(trace: seq<Call>, k: TokenId): seq<Call> {
    if trace == [] then []
    else
      var n := |trace| - 1;
      Only(trace[..n], k) + (if trace[n].token == k then [trace[n]] else [])
  }

  lemma {:induction false} RunOnly(lim: Limits, trace: seq<Call>, k: TokenId)
    requires lim.Valid()
    ensures k in Run(lim, trace) <==> k in Run(lim, Only(trace, k))
    ensures k in Run(lim, trace) ==> Run(lim, trace)[k] == Run(lim, Only(trace, k))[k]
  {
    if trace == [] {
    } else {
      var n := |trace| - 1;
      RunOnly(lim, trace[..n], k);
      if trace[n].token == k {
        RunSnoc(lim, Only(trace[..n], k), trace[n], k, Minute);
      } else {
        assert Only(trace, k) == Only(trace[..n], k);
      }
    }
  }

  /** Decision and retry value for a token are those of the trace with every other token's calls removed. */
  lemma TokensAreIndependent(lim: Limits, trace: seq<Call>, c: Call)
    requires lim.Valid()
    ensures Answer(lim, Run(lim, trace), c) == Answer(lim, Run(lim, Only(trace, c.token)), c)
  {
    RunOnly(lim, trace, c.token);
  }

  // ---- denied checks leave no trace ----

  lemma ClockedWithout(pre: seq<Call>, d: Call, post: seq<Call>)
    requires Clocked(pre + [d] + post)
    ensures Clocked(pre + post)
  {
    var full, n := pre + [d] + post, |pre|;
    assert forall j :: 0 <= j < |pre + post| ==> (pre + post)[j] == full[if j < n then j else j + 1];
  }

  lemma SameAcceptedSnoc(lim: Limits, u: seq<Call>, t: seq<Call>, c: Call, k: TokenId, w: Window)
    requires lim.Valid() && Accepted(lim, u, k, w) == Accepted(lim, t, k, w)
    requires Answer(lim, Run(lim, u), c) == Answer(lim, Run(lim, t), c)
    ensures Accepted(lim, u + [c], k, w) == Accepted(lim, t + [c], k, w)
  {
    RunSnoc(lim, u, c, k, w);
    RunSnoc(lim, t, c, k, w);
  }

  /** With no negative limit, the answers agree. */
  lemma {:induction false} AcceptedWithout(lim: Limits, pre: seq<Call>, d: Call, post: seq<Call>, k: TokenId, w: Window)
    requires lim.NonNegative() && Clocked(pre + [d] + post) && !Answer(lim, Run(lim, pre), d).allowed
    ensures Accepted(lim, pre + post, k, w) == Accepted(lim, pre + [d] + post, k, w)
    decreases |post|, 0
  {
    if post == [] {
      RunSnoc(lim, pre, d, k, w);
      assert pre + post == pre && pre + [d] + post == pre + [d];
    } else {
      var n := |post| - 1;
      var p, c := post[..n], post[n];
      assert pre + post == pre + p + [c] && pre + [d] + post == pre + [d] + p + [c];
      ClockedPrefix(pre + [d] + p + [c], |pre| + 1 + n);
      assert (pre + [d] + p + [c])[..|pre| + 1 + n] == pre + [d] + p;
      AcceptedWithout(lim, pre, d, p, k, w);
      SameAnswerWithout(lim, pre, d, p, c);
      SameAcceptedSnoc(lim, pre + p, pre + [d] + p, c, k, w);
    }
  }

  lemma {:induction false} SameAnswerWithout(lim: Limits, pre: seq<Call>, d: Call, post: seq<Call>, c: Call)
    requires lim.NonNegative() && Clocked(pre + [d] + post + [c]) && !Answer(lim, Run(lim, pre), d).allowed
    ensures Answer(lim, Run(lim, pre + post), c) == Answer(lim, Run(lim, pre + [d] + post), c)
    decreases |post|, 1
  {
    var full := pre + [d] + post;
    assert (full + [c])[..|full|] == full;
    ClockedPrefix(full + [c], |full|);
    AcceptedWithout(lim, pre, d, post, c.token, Minute);
    AcceptedWithout(lim, pre, d, post, c.token, Hour);
    ClockedRest(pre, d, post, c);
    AnswerFromHistory(lim, pre + post, c);
    AnswerFromHistory(lim, full, c);
  }

  lemma ClockedRest(pre: seq<Call>, d: Call, post: seq<Call>, c: Call)
    requires Clocked(pre + [d] + post + [c])
    ensures Clocked(pre + post + [c])
  {
    assert pre + [d] + post + [c] == pre + [d] + (post + [c]) && pre + (post + [c]) == pre + post + [c];
    ClockedWithout(pre, d, post + [c]);
  }

  // -- with a limit that is not positive, nothing is ever allowed, and the gate's bucket answers --

  lemma {:induction false} NothingAccepted(lim: Limits, trace: seq<Call>, k: TokenId, w: Window)
    requires lim.Valid() && !lim.Positive() && Clocked(trace)
    ensures Accepted(lim, trace, k, w) == []
  {
    if trace != [] {
      var n := |trace| - 1;
      ClockedPrefix(trace, n);
      NothingAccepted(lim, trace[..n], k, w);
      Exactness(lim, trace, n);
      assert !WithinBound(lim.Of(lim.Gate()), Accepted(lim, trace[..n], trace[n].token, lim.Gate()), trace[n].r.Now(lim.Gate()));
    }
  }

  lemma GateAnswers(lim: Limits, trace: seq<Call>, c: Call)
    requires lim.Valid() && !lim.Positive() && Clocked(trace + [c])
    ensures Answer(lim, Run(lim, trace), c) == Verdict(false, Wait(lim.Of(lim.Gate()), Held(lim, trace, c, lim.Gate())))
  {
    assert (trace + [c])[..|trace|] == trace;
    ClockedPrefix(trace + [c], |trace|);
    AnswerFromHistory(lim, trace, c);
    NothingAccepted(lim, trace, c.token, Minute);
    NothingAccepted(lim, trace, c.token, Hour);
    if lim.minute.capacity < 0 { DrainedHoldsNothing(lim, trace, c, Minute); }
    if lim.hour.capacity < 0 { DrainedHoldsNothing(lim, trace, c, Hour); }
    assert lim.Of(Minute) == lim.minute && lim.Of(Hour) == lim.hour;
  }

  /** A draining bucket's retry value tells when it was made. */
  lemma RetryTellsBirth(limit: Limit, born: real, born': real, now: real)
    requires limit.Valid() && limit.capacity < 0
    ensures Wait(limit, Drained(limit, born, now)) == Wait(limit, Drained(limit, born', now)) <==> born == born'
  {
    RateSign(limit, 0.0);
    DividesApart(1.0 - limit.Cap(), now - born, now - born', limit.Rate());
  }

  lemma DividesApart(x: real, e: real, e': real, rate: real)
    requires rate < 0.0
    ensures (x - e * rate) / rate == (x - e' * rate) / rate <==> e == e'
  {
    assert (x - e * rate) / rate == x / rate - e;
    assert (x - e' * rate) / rate == x / rate - e';
  }

  /**
    The bucket of the gate is made at the same time with `d` as without it: `d` is another token's, or
    not its token's first, or its token's next call reads the same clock.
   */
  ghost predicate SameBirth(lim: Limits, pre: seq<Call>, d: Call, post: seq<Call>, c: Call)
    requires lim.Valid()
  {
    d.token != c.token || d.token in Run(lim, pre) || BornAt(post + [c], d.token, lim.Gate()) == Some(d.r.Born(lim.Gate()))
  }

  lemma {:induction false} BornIffStored(lim: Limits, trace: seq<Call>, k: TokenId, w: Window)
    requires lim.Valid()
    ensures BornAt(trace, k, w).Some? <==> k in Run(lim, trace)
  {
    if trace != [] { BornIffStored(lim, trace[..|trace| - 1], k, w); }
  }

  /** The birth of the bucket that answers `c`, in a trace. */
  function BirthFor(trace: seq<Call>, c: Call, w: Window): real {
    var born := BornAt(trace, c.token, w);
    if born.Some? then born.value else c.r.Born(w)
  }

  lemma BirthsAgreeIff(lim: Limits, pre: seq<Call>, d: Call, post: seq<Call>, c: Call)
    requires lim.Valid()
    ensures BirthFor(pre + post, c, lim.Gate()) == BirthFor(pre + [d] + post, c, lim.Gate()) <==> SameBirth(lim, pre, d, post, c)
  {
    var w := lim.Gate();
    BornConcat(pre, post, c.token, w);
    BornConcat(pre + [d], post, c.token, w);
    BornConcat(pre, [d], c.token, w);
    BornConcat(post, [c], c.token, w);
    BornIffStored(lim, pre, c.token, w);
    BornOfOne(d, c.token, w);
    BornOfOne(c, c.token, w);
  }

  lemma BornOfOne(d: Call, k: TokenId, w: Window)
    ensures BornAt([d], k, w) == if d.token == k then Some(d.r.Born(w)) else None
  {
    assert [d][..0] == [];
  }

  /**
    Deleting a denied check changes no later decision, and it leaves a later retry value as it is if and
    only if the deciding limit is not negative or the check did not make the bucket that answers.
   */
  lemma DeniedIsInvisible(lim: Limits, pre: seq<Call>, d: Call, post: seq<Call>, c: Call)
    requires lim.Valid() && Clocked(pre + [d] + post + [c]) && !Answer(lim, Run(lim, pre), d).allowed
    ensures Answer(lim, Run(lim, pre + post), c).allowed == Answer(lim, Run(lim, pre + [d] + post), c).allowed
    ensures Answer(lim, Run(lim, pre + post), c) == Answer(lim, Run(lim, pre + [d] + post), c)
            <==> lim.Positive() || lim.Of(lim.Gate()).capacity == 0 || SameBirth(lim, pre, d, post, c)
  {
    if lim.Positive() {
      SameAnswerWithout(lim, pre, d, post, c);
    } else {
      ClockedRest(pre, d, post, c);
      GateAnswers(lim, pre + post, c);
      GateAnswers(lim, pre + [d] + post, c);
      if lim.Of(lim.Gate()).capacity < 0 {
        BirthsAgreeIff(lim, pre, d, post, c);
        RetryTellsBirth(lim.Of(lim.Gate()), BirthFor(pre + post, c, lim.Gate()), BirthFor(pre + [d] + post, c, lim.Gate()),
                        c.r.Now(lim.Gate()));
      }
    }
  }

  ghost predicate Invisible(lim: Limits, pre: seq<Call>, d: Call, post: seq<Call>, c: Call)
    requires lim.Valid()
  {
    Clocked(pre + [d] + post + [c]) && !Answer(lim, Run(lim, pre), d).allowed ==>
      Answer(lim, Run(lim, pre + post), c) == Answer(lim, Run(lim, pre + [d] + post), c)
  }

  function CallAt(k: TokenId, t: real): Call { Call(k, Readings(t, t, t, t)) }

  lemma ClockedPair(d: Call, c: Call)
    requires d.r.Ordered() && c.r.Ordered() && d.r.hourNow <= c.r.minuteBorn
    ensures Clocked([] + [d] + [] + [c]) && Clocked([] + [d])
  {
    assert [] + [d] + [] + [c] == [d, c] && [] + [d] == [d];
  }

  /** Two first calls of one token, at times 0 and 1: with a negative limit the second retry value tells if the first was made. */
  lemma DeniedShows(lim: Limits, k: TokenId)
    requires lim.Valid() && lim.Of(lim.Gate()).capacity < 0
    ensures !Invisible(lim, [], CallAt(k, 0.0), [], CallAt(k, 1.0))
  {
    var d, c := CallAt(k, 0.0), CallAt(k, 1.0);
    ClockedPair(d, c);
    GateAnswers(lim, [], d);
    assert !SameBirth(lim, [], d, [], c) by {
      assert [] + [c] == [c];
      BornOfOne(c, k, lim.Gate());
    }
    DeniedIsInvisible(lim, [], d, [], c);
  }

  /** For given limits, denied checks are invisible in every trace if and only if the deciding limit is not negative. */
  lemma AlwaysInvisibleIff(lim: Limits)
    requires lim.Valid()
    ensures (lim.Positive() || lim.Of(lim.Gate()).capacity == 0) <==>
            forall pre, d, post, c :: Invisible(lim, pre, d, post, c)
  {
    if lim.Positive() || lim.Of(lim.Gate()).capacity == 0 {
      forall pre, d, post, c ensures Invisible(lim, pre, d, post, c) {
        if Clocked(pre + [d] + post + [c]) && !Answer(lim, Run(lim, pre), d).allowed {
          DeniedIsInvisible(lim, pre, d, post, c);
        }
      }
    } else {
      DeniedShows(lim, TokenId("token"));
    }
  }

  // ---- the retry value ----

  /** The window whose bucket made `Judge` say no. */
  function Blocker(p: Pair): Window { if p.minute.tokens < 1.0 then Minute else Hour }

  lemma WaitIsExact(b: Level, limit: Limit, later: real)
    requires limit.Valid() && limit.capacity > 0 && b.tokens < 1.0
    ensures Wait(limit, b.tokens).Some? && Wait(limit, b.tokens).value > 0.0
    ensures Refill(b, limit, later).tokens >= 1.0 <==> later >= b.at + Wait(limit, b.tokens).value
  {
    RateSign(limit, 0.0);
    GainAfterWait(limit.Rate(), 1.0 - b.tokens, Wait(limit, b.tokens).value, later - b.at);
  }

  lemma GainAfterWait(rate: real, missing: real, wait: real, elapsed: real)
    requires rate > 0.0 && missing > 0.0 && wait == missing / rate
    ensures wait > 0.0
    ensures elapsed * rate >= missing <==> elapsed >= wait
  {
    assert wait > 0.0;
    assert wait * rate == missing;
    if elapsed >= wait {
      assert (elapsed - wait) * rate >= 0.0;
    } else {
      assert (wait - elapsed) * rate > 0.0;
    }
  }

  /** A bucket that holds a token keeps holding one until it is taken. */
  lemma HoldsOn(b: Level, limit: Limit, later: real)
    requires limit.Valid() && limit.capacity > 0 && b.tokens >= 1.0 && later >= b.at
    ensures Refill(b, limit, later).tokens >= 1.0
  {
    RateSign(limit, later - b.at);
  }

  /** `c` comes at least `wait` seconds after `b` returned, and only other tokens were checked between. */
  ghost predicate Follows(lim: Limits, s: Buckets, b: Call, s': Buckets, c: Call, wait: Option<real>)
    requires lim.Valid()
  {
    && wait.Some? && b.token == c.token && c.token in s' && s'[c.token] == Step(lim, s, b)[b.token]
    && b.r.Ordered() && c.r.Ordered() && b.r.hourNow + wait.value <= c.r.minuteBorn
  }

  /** The retry value is the least wait: sooner, the bucket that said no still says no. */
  lemma RetryIsLeastWait(lim: Limits, s: Buckets, b: Call, s': Buckets, c: Call)
    requires lim.Positive() && Follows(lim, s, b, s', c, Some(0.0)) && !Answer(lim, s, b).allowed
    ensures var w := Blocker(Refilled(lim, Lookup(lim, s, b), b.r));
            && Answer(lim, s, b).retry.Some?
            && (c.r.Now(w) < b.r.Now(w) + Answer(lim, s, b).retry.value ==> !Answer(lim, s', c).allowed)
  {
    var p := Refilled(lim, Lookup(lim, s, b), b.r);
    var w := Blocker(p);
    WaitIsExact(p.Of(w), lim.Of(w), c.r.Now(w));
  }

  /**
    Two honest waits suffice: a client that is denied, waits the returned seconds, is denied again
    and again waits, is allowed the third time.
   */
  lemma RetryIsHonest(lim: Limits, s0: Buckets, a: Call, s1: Buckets, b: Call, s2: Buckets, c: Call)
    requires lim.Positive()
    requires !Answer(lim, s0, a).allowed && Follows(lim, s0, a, s1, b, Answer(lim, s0, a).retry)
    requires !Answer(lim, s1, b).allowed && Follows(lim, s1, b, s2, c, Answer(lim, s1, b).retry)
    ensures Answer(lim, s2, c).allowed
  {
    var p, q := Refilled(lim, Lookup(lim, s0, a), a.r), Refilled(lim, Lookup(lim, s1, b), b.r);
    assert Lookup(lim, s1, b) == p && Lookup(lim, s2, c) == q;
    var w := Blocker(p);
    WaitIsExact(p.Of(w), lim.Of(w), b.r.Now(w));
    if w == Hour {
      HoldsOn(p.minute, lim.minute, b.r.minuteNow);
      assert false;
    }
    assert q.minute.tokens >= 1.0;
    WaitIsExact(q.hour, lim.hour, c.r.hourNow);
    HoldsOn(q.minute, lim.minute, c.r.minuteNow);
  }
}
