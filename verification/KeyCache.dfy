/**
  Looking up a soul's data-encryption key, through the process-wide cache with a time to live.

  The cache outlives transactions: a key cached while an import is still open stays cached when the
  import is rolled back.
 */
module KeyCache {
  import opened Prelude
  import opened Crypto
  import opened Store

  datatype KeyError = NoKey | BadTag

  datatype Entry = Entry(dek: Key, cachedAt: Time)

  type Cached = map<SoulId, Entry>

  // ---- the cache ----

  function Hit(cache: Cached, ttl: real, soul: SoulId, now: Time): Option<Key> {
    if soul in cache && now - cache[soul].cachedAt <= ttl then Some(cache[soul].dek) else None
  }

  class DekCache {
    var cache: Cached
    const ttl: real

    constructor (ttl: real)
      ensures this.ttl == ttl && cache == map[]
    {
      this.ttl, cache := ttl, map[];
    }

    /** An expired entry is dropped on the way. */
    method Get(soul: SoulId, now: Time) returns (dek: Option<Key>)
      modifies this
      ensures dek == Hit(old(cache), ttl, soul, now)
      ensures cache == if dek.None? then old(cache) - {soul} else old(cache)
    {
      if soul !in cache {
        assert cache == cache - {soul};
        return None;
      }
      var entry := cache[soul];
      if now - entry.cachedAt > ttl {
        cache := cache - {soul};
        return None;
      }
      return Some(entry.dek);
    }

    method Put(soul: SoulId, dek: Key, now: Time)
      modifies this
      ensures cache == old(cache)[soul := Entry(dek, now)]
    {
      cache := cache[soul := Entry(dek, now)];
    }

    method Invalidate(soul: SoulId)
      modifies this
      ensures cache == old(cache) - {soul}
    {
      cache := cache - {soul};
    }

    method Clear()
      modifies this
      ensures cache == map[]
    {
      cache := map[];
    }
  }

  // ---- the lookup ----

  /** What the key table says, as the session sees it. */
  function TableDek(keys: KeyTable, master: Key, soul: SoulId): Result<Key, KeyError> {
    if soul !in keys then Err(NoKey)
    else
      match UnwrapDek(keys[soul], master, Aad(soul, DekDomain))
      case Some(dek) => Ok(dek)
      case None => Err(BadTag)
  }

  function CachedDek(keys: KeyTable, cache: Cached, ttl: real, master: Key, soul: SoulId, now: Time): Result<Key, KeyError> {
    match Hit(cache, ttl, soul, now)
    case Some(dek) => Ok(dek)
    case None => TableDek(keys, master, soul)
  }

  function CacheAfter(keys: KeyTable, cache: Cached, ttl: real, master: Key, soul: SoulId, now: Time, putAt: Time): Cached {
    if Hit(cache, ttl, soul, now).Some? then cache
    else
      match TableDek(keys, master, soul)
      case Ok(dek) => cache[soul := Entry(dek, putAt)]
      case Err(_) => cache - {soul}
  }

  method GetDek(db: Database, cache: DekCache, master: Key, soul: SoulId, now: Time, putAt: Time)
    returns (r: Result<Key, KeyError>)
    modifies cache
    ensures r == CachedDek(db.keys, old(cache.cache), cache.ttl, master, soul, now)
    ensures cache.cache == CacheAfter(db.keys, old(cache.cache), cache.ttl, master, soul, now, putAt)
  {
    var cached := cache.Get(soul, now);
    if cached.Some? {
      return Ok(cached.value);
    }
    if soul !in db.keys {
      return Err(NoKey);
    }
    var dek := UnwrapDek(db.keys[soul], master, Aad(soul, DekDomain));
    if dek.None? {
      return Err(BadTag);
    }
    cache.Put(soul, dek.value, putAt);
    return Ok(dek.value);
  }

  // ---- one process against the database ----

  /** `open`: keys inserted by imports and soul creations that have not committed yet. */
  datatype State = State(keys: KeyTable, open: KeyTable, cache: Cached)

  datatype Op =
    | Begin(soul: SoulId, dek: Key, nonce: Nonce)  // create a soul, key row included
    | LookupInside(soul: SoulId, now: Time, putAt: Time)  // a lookup by the transaction that creates the soul
    | Commit(soul: SoulId)
    | Abort(soul: SoulId)
    | Lookup(soul: SoulId, now: Time, putAt: Time)  // a lookup by any other session
    | Invalidate(soul: SoulId)
    | Clear

  datatype Setting = Setting(master: Key, ttl: real)

  function Step(c: Setting, s: State, op: Op): State {
    match op
    case Begin(soul, dek, nonce) =>
      if soul in s.keys then s  // the primary key aborts it
      else s.(open := s.open[soul := WrapDek(dek, c.master, nonce, Aad(soul, DekDomain))])
    case LookupInside(soul, now, putAt) =>
      if soul in s.open then s.(cache := CacheAfter(s.open, s.cache, c.ttl, c.master, soul, now, putAt)) else s
    case Commit(soul) =>
      if soul in s.open then s.(keys := s.keys[soul := s.open[soul]], open := s.open - {soul}) else s
    case Abort(soul) => s.(open := s.open - {soul})
    case Lookup(soul, now, putAt) => s.(cache := CacheAfter(s.keys, s.cache, c.ttl, c.master, soul, now, putAt))
    case Invalidate(soul) => s.(cache := s.cache - {soul})
    case Clear => s.(cache := map[])
  }

  function Run(c: Setting, ops: seq<Op>): State {
    if ops == [] then State(map[], map[], map[]) else Step(c, Run(c, ops[..|ops| - 1]), ops[|ops| - 1])
  }

  /** No soul id is generated twice, not even after a rollback. */
  ghost predicate FreshIds(ops: seq<Op>) {
    forall i, j :: 0 <= i < j < |ops| && ops[i].Begin? && ops[j].Begin? ==> ops[i].soul != ops[j].soul
  }

  predicate Begun(ops: seq<Op>, soul: SoulId) {
    exists i :: 0 <= i < |ops| && ops[i].Begin? && ops[i].soul == soul
  }

  // ---- the cache agrees with the table ----

  predicate Agrees(keys: KeyTable, cache: Cached, master: Key, soul: SoulId) {
    soul in keys && soul in cache ==> TableDek(keys, master, soul) == Ok(cache[soul].dek)
  }

  ghost predicate Coherent(c: Setting, s: State, ops: seq<Op>, soul: SoulId) {
    && Agrees(s.keys, s.cache, c.master, soul)
    && Agrees(s.open, s.cache, c.master, soul)
    && (soul in s.keys ==> soul !in s.open && TableDek(s.keys, c.master, soul).Ok?)
    && (soul in s.open ==> TableDek(s.open, c.master, soul).Ok?)
    && (!Begun(ops, soul) ==> soul !in s.keys && soul !in s.open && soul !in s.cache)
  }

  lemma BegunBefore(ops: seq<Op>, soul: SoulId)
    requires ops != []
    ensures var last := ops[|ops| - 1];
            Begun(ops, soul) <==> Begun(ops[..|ops| - 1], soul) || (last.Begin? && last.soul == soul)
  {
    var n := |ops| - 1;
    if Begun(ops[..n], soul) {
      var i :| 0 <= i < n && ops[..n][i].Begin? && ops[..n][i].soul == soul;
      assert ops[i].Begin?;
    }
    if Begun(ops, soul) && !(ops[n].Begin? && ops[n].soul == soul) {
      var i :| 0 <= i < |ops| && ops[i].Begin? && ops[i].soul == soul;
      assert ops[..n][i].Begin?;
    }
  }

  lemma FreshLast(ops: seq<Op>)
    requires ops != [] && FreshIds(ops) && ops[|ops| - 1].Begin?
    ensures !Begun(ops[..|ops| - 1], ops[|ops| - 1].soul)
  {
  }

  lemma StepKeepsCoherent(c: Setting, s: State, ops: seq<Op>, soul: SoulId)
    requires ops != [] && FreshIds(ops) && Coherent(c, s, ops[..|ops| - 1], soul)
    ensures Coherent(c, Step(c, s, ops[|ops| - 1]), ops, soul)
  {
    BegunBefore(ops, soul);
    if ops[|ops| - 1].Begin? { FreshLast(ops); }
  }

  lemma {:induction false} RunIsCoherent(c: Setting, ops: seq<Op>, soul: SoulId)
    requires FreshIds(ops)
    ensures Coherent(c, Run(c, ops), ops, soul)
  {
    if ops != [] {
      RunIsCoherent(c, ops[..|ops| - 1], soul);
      StepKeepsCoherent(c, Run(c, ops[..|ops| - 1]), ops, soul);
    }
  }

  /** For a soul in the table, the cache returns what the table holds, whatever the clocks read. */
  lemma CacheRefinesTable(c: Setting, ops: seq<Op>, soul: SoulId, now: Time)
    requires FreshIds(ops) && soul in Run(c, ops).keys
    ensures var s := Run(c, ops);
            CachedDek(s.keys, s.cache, c.ttl, c.master, soul, now) == TableDek(s.keys, c.master, soul)
    ensures TableDek(Run(c, ops).keys, c.master, soul).Ok?
  {
    RunIsCoherent(c, ops, soul);
  }

  /** For any soul, cache and table differ exactly on a live entry for a soul that is not, or not yet, in the table. */
  lemma CacheDiffersOnlyOffTable(c: Setting, ops: seq<Op>, soul: SoulId, now: Time)
    requires FreshIds(ops)
    ensures var s := Run(c, ops);
            CachedDek(s.keys, s.cache, c.ttl, c.master, soul, now) != TableDek(s.keys, c.master, soul)
            <==> soul !in s.keys && Hit(s.cache, c.ttl, soul, now).Some?
  {
    RunIsCoherent(c, ops, soul);
  }

  lemma RunSnoc(c: Setting, ops: seq<Op>, op: Op)
    ensures Run(c, ops + [op]) == Step(c, Run(c, ops), op)
  {
    assert (ops + [op])[..|ops|] == ops;
  }

  // ---- how long an entry lives ----

  /** A key that a lookup took from the table answers for exactly the time to live, counted from when it was put. */
  lemma EntryLivesForTtl(c: Setting, ops: seq<Op>, soul: SoulId, at: Time, putAt: Time, now: Time)
    requires FreshIds(ops) && soul in Run(c, ops).keys && Hit(Run(c, ops).cache, c.ttl, soul, at).None?
    ensures var dek := TableDek(Run(c, ops).keys, c.master, soul);
            dek.Ok? && Hit(Run(c, ops + [Lookup(soul, at, putAt)]).cache, c.ttl, soul, now)
                    == if now - putAt <= c.ttl then Some(dek.value) else None
  {
    RunIsCoherent(c, ops, soul);
    RunSnoc(c, ops, Lookup(soul, at, putAt));
  }

  /** An entry that answers is not renewed by answering. */
  lemma HitKeepsEntry(c: Setting, ops: seq<Op>, soul: SoulId, at: Time, putAt: Time)
    requires Hit(Run(c, ops).cache, c.ttl, soul, at).Some?
    ensures Run(c, ops + [Lookup(soul, at, putAt)]).cache == Run(c, ops).cache
  {
    RunSnoc(c, ops, Lookup(soul, at, putAt));
  }

  /** A commit adds the new soul's key to the table and changes no other; before it, and after an abort, there is none. */
  lemma OnlyCommitAdds(c: Setting, ops: seq<Op>, soul: SoulId, dek: Key, nonce: Nonce, other: SoulId)
    requires FreshIds(ops) && !Begun(ops, soul)
    ensures var begun := ops + [Begin(soul, dek, nonce)];
      && TableDek(Run(c, begun).keys, c.master, soul) == Err(NoKey)
      && TableDek(Run(c, begun + [Commit(soul)]).keys, c.master, soul) == Ok(dek)
      && TableDek(Run(c, begun + [Abort(soul)] + [Commit(soul)]).keys, c.master, soul) == Err(NoKey)
      && (other != soul ==>
            TableDek(Run(c, begun + [Commit(soul)]).keys, c.master, other) == TableDek(Run(c, ops).keys, c.master, other))
  {
    RunIsCoherent(c, ops, soul);
    var begun := ops + [Begin(soul, dek, nonce)];
    RunSnoc(c, ops, Begin(soul, dek, nonce));
    RunSnoc(c, begun, Commit(soul));
    RunSnoc(c, begun, Abort(soul));
    RunSnoc(c, begun + [Abort(soul)], Commit(soul));
  }

  /** After an invalidation no entry of the soul answers. */
  lemma InvalidatedIsGone(c: Setting, ops: seq<Op>, soul: SoulId, now: Time)
    ensures Hit(Run(c, ops + [Invalidate(soul)]).cache, c.ttl, soul, now).None?
    ensures Hit(Run(c, ops + [Clear]).cache, c.ttl, soul, now).None?
  {
    RunSnoc(c, ops, Invalidate(soul));
    RunSnoc(c, ops, Clear);
  }

  /** An aborted import that stored a sensitive property leaves its key in the cache, for the time to live. */
  lemma AbortedImportStaysCached(c: Setting, ops: seq<Op>, soul: SoulId, dek: Key, nonce: Nonce, t: Time, now: Time)
    requires FreshIds(ops) && !Begun(ops, soul)
    ensures var s := Run(c, ops + [Begin(soul, dek, nonce)] + [LookupInside(soul, t, t)] + [Abort(soul)]);
            && TableDek(s.keys, c.master, soul) == Err(NoKey)
            && CachedDek(s.keys, s.cache, c.ttl, c.master, soul, now) == if now - t <= c.ttl then Ok(dek) else Err(NoKey)
  {
    RunIsCoherent(c, ops, soul);
    var s := Run(c, ops);
    var a, b := ops + [Begin(soul, dek, nonce)], ops + [Begin(soul, dek, nonce)] + [LookupInside(soul, t, t)];
    RunSnoc(c, ops, Begin(soul, dek, nonce));
    RunSnoc(c, a, LookupInside(soul, t, t));
    RunSnoc(c, b, Abort(soul));
    assert Run(c, b).cache == s.cache[soul := Entry(dek, t)];
    assert Run(c, b + [Abort(soul)]).keys == s.keys;
  }
}
