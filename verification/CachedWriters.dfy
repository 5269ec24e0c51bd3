/**
  The tools look their soul's key up through the cache, while the writers' specifications read the key
  table. Except for a stale entry of a soul that is not in the table the two make no difference.
 */
module CachedWriters {
  import opened Prelude
  import opened Crypto
  import opened Store
  import KeyCache
  import opened Export
  import opened Import
  import opened Portability
  import Reachability
  import SelfCore
  import Facts
  import Properties
  import Adaptations
  import Memories

  /** A key table that answers every lookup as the cache in front of `keys` does. */
  function AsCached(keys: KeyTable, cache: KeyCache.Cached, ttl: real, master: Key, now: Time): KeyTable {
    map soul | soul in keys.Keys + cache.Keys && (soul in keys || KeyCache.Hit(cache, ttl, soul, now).Some?) ::
      match KeyCache.Hit(cache, ttl, soul, now)
      case Some(dek) => WrapDek(dek, master, 0, Aad(soul, DekDomain))
      case None => keys[soul]
  }

  lemma AnswersAsCached(keys: KeyTable, cache: KeyCache.Cached, ttl: real, master: Key, now: Time, soul: SoulId)
    ensures KeyCache.TableDek(AsCached(keys, cache, ttl, master, now), master, soul)
         == KeyCache.CachedDek(keys, cache, ttl, master, soul, now)
  {
  }

  /** The soul a command is about, if it is about one. */
  function Subject(t: Tables, c: Reachability.Command): Option<SoulId> {
    match c
    case CreateSoul(soul, _, _) => Some(soul)
    case CoreCommand(op) => Some(op.soul)
    case FactCommand(op) => Some(op.k.soul)
    case PropertyCommand(op) => Some(op.k.soul)
    case AdaptationCommand(op) =>
      if !op.Supersede? then Some(op.soul)
      else
        var i := Adaptations.Position(t.adaptations, op.oldId);
        if i < |t.adaptations| then Some(t.adaptations[i].soul) else None
    case MemoryCommand(op) => if op.Remember? || op.Import? then Some(op.soul) else None
    case ImportCommand(q) => if q.target.NewSoul? then Some(q.target.id) else if q.target.Into? then q.target.soul else None
  }

  /** Same key for the soul. */
  predicate Agree(keys: KeyTable, keys': KeyTable, master: Key, soul: SoulId) {
    KeyCache.TableDek(keys, master, soul) == KeyCache.TableDek(keys', master, soul) && (soul in keys <==> soul in keys')
  }

  // ---- same key, same write ----

  lemma FactsAlike(keys: KeyTable, keys': KeyTable, master: Key, facts: FactTable, op: Facts.Op)
    requires Agree(keys, keys', master, op.k.soul)
    ensures Facts.Apply(keys, master, facts, op) == Facts.Apply(keys', master, facts, op)
  {
  }

  lemma PropertiesAlike(keys: KeyTable, keys': KeyTable, master: Key, props: PropertyTable, op: Properties.Op)
    requires Agree(keys, keys', master, op.k.soul)
    ensures Properties.Apply(keys, master, props, op) == Properties.Apply(keys', master, props, op)
  {
  }

  lemma AdaptationsAlike(t: Tables, keys: KeyTable, master: Key, op: Adaptations.Op)
    requires Subject(t, Reachability.AdaptationCommand(op)).Some? ==>
      Agree(t.keys, keys, master, Subject(t, Reachability.AdaptationCommand(op)).value)
    ensures Adaptations.Apply(t.keys, master, t.adaptations, op) == Adaptations.Apply(keys, master, t.adaptations, op)
  {
  }

  // -- so do the loops of an import --

  lemma CountedAlike(keys: KeyTable, keys': KeyTable, master: Key, c: PropertyCount, soul: SoulId, p: PropertyRecord, mode: Mode,
                     nonce: Nonce)
    requires Agree(keys, keys', master, soul)
    ensures CountProperty(keys, master, c, soul, p, mode, nonce) == CountProperty(keys', master, c, soul, p, mode, nonce)
  {
    PropertiesAlike(keys, keys', master, c.table, Properties.Set(PropertyKey(soul, p.ptype), p.value, nonce));
  }

  /** The loop over a bundle's properties, each lookup made against a key table of its own. */
  function PropertiesThrough(views: nat -> KeyTable, master: Key, soul: SoulId, s: seq<PropertyRecord>, mode: Mode,
                             draw: nat -> Nonce, i: nat, c: PropertyCount): PropertyCount
    requires i <= |s|
    decreases |s| - i
  {
    if i == |s| then c
    else PropertiesThrough(views, master, soul, s, mode, draw, i + 1,
                           CountProperty(views(i), master, c, soul, s[i], mode, draw(i)))
  }

  lemma {:induction false} PropertiesLoopAlike(views: nat -> KeyTable, keys: KeyTable, master: Key, soul: SoulId,
                                               s: seq<PropertyRecord>, mode: Mode, draw: nat -> Nonce, i: nat, c: PropertyCount)
    requires i <= |s| && forall j :: i <= j < |s| ==> Agree(keys, views(j), master, soul)
    ensures PropertiesThrough(views, master, soul, s, mode, draw, i, c)
         == PropertiesFrom(keys, master, soul, s, mode, draw, i, c)
    decreases |s| - i
  {
    if i < |s| {
      CountedAlike(keys, views(i), master, c, soul, s[i], mode, draw(i));
      PropertiesLoopAlike(views, keys, master, soul, s, mode, draw, i + 1,
                          CountProperty(keys, master, c, soul, s[i], mode, draw(i)));
    }
  }

  lemma {:induction false} PropertiesSame(keys: KeyTable, keys': KeyTable, master: Key, soul: SoulId, s: seq<PropertyRecord>,
                                          mode: Mode, draw: nat -> Nonce, c: PropertyCount)
    requires Agree(keys, keys', master, soul)
    ensures PropertiesFrom(keys', master, soul, s, mode, draw, 0, c) == PropertiesFrom(keys, master, soul, s, mode, draw, 0, c)
  {
    PropertiesLoopAlike((i: nat) => keys', keys, master, soul, s, mode, draw, 0, c);
    PropertiesLoopAlike((i: nat) => keys', keys', master, soul, s, mode, draw, 0, c);
  }

  lemma {:induction false} AdaptationsSame(keys: KeyTable, keys': KeyTable, master: Key, t: AdaptationTable, soul: SoulId,
                                           s: seq<AdaptationRecord>, draw: nat -> Draw, now: Time, i: nat)
    requires i <= |s| && Agree(keys, keys', master, soul)
    ensures AdaptationsFrom(keys', master, t, soul, s, draw, now, i) == AdaptationsFrom(keys, master, t, soul, s, draw, now, i)
    decreases |s| - i
  {
    if i < |s| {
      var op := AdaptationOp(s[i], soul, draw(i), now);
      assert Adaptations.Apply(keys', master, t, op) == Adaptations.Apply(keys, master, t, op);
      AdaptationsSame(keys, keys', master, Adaptations.Apply(keys, master, t, op).0, soul, s, draw, now, i + 1);
    }
  }

  lemma {:induction false} MemoriesSame(keys: KeyTable, keys': KeyTable, sv: Memories.Services, t: MemoryTable, soul: SoulId,
                                        s: seq<MemoryRecord>, recompute: bool, draw: nat -> Draw, now: Time, i: nat)
    requires i <= |s| && Agree(keys, keys', sv.master, soul)
    ensures MemoriesFrom(keys', sv, t, soul, s, recompute, draw, now, i) == MemoriesFrom(keys, sv, t, soul, s, recompute, draw, now, i)
    decreases |s| - i
  {
    if i < |s| {
      var op := MemoryOp(s[i], soul, recompute, sv.embed, draw(i), now);
      assert Memories.Apply(keys', sv, t, op) == Memories.Apply(keys, sv, t, op);
      MemoriesSame(keys, keys', sv, Memories.Apply(keys, sv, t, op).0, soul, s, recompute, draw, now, i + 1);
    }
  }

  lemma FillSame(t: Tables, sv: Memories.Services, o: Opening, q: Request, keys': KeyTable, t': Tables)
    requires Agree(o.keys, keys', sv.master, o.soul) && t' == t.(keys := t'.keys)
    ensures Fill(t', sv, o.(keys := keys'), q) ==
      match Fill(t, sv, o, q)
      case Err(e) => Err(e)
      case Ok(d) => Ok(d.(tables := d.tables.(keys := keys')))
  {
    var b := q.bundle;
    PropertiesSame(o.keys, keys', sv.master, o.soul, b.properties, q.mode, q.draws.properties, PropertyCount(t.properties, 0, 0));
    AdaptationsSame(o.keys, keys', sv.master, t.adaptations, o.soul, b.adaptations, q.draws.adaptations, q.now, 0);
    MemoriesSame(o.keys, keys', sv, t.memories, o.soul, b.memories, q.recompute, q.draws.memories, q.now, 0);
  }

  // ---- the whole step ----

  /** A view of the key table that gives the subject the same key, and takes up a new key as the table does. */
  ghost predicate Sees(view: KeyTable -> KeyTable, keys: KeyTable, master: Key, soul: SoulId) {
    && Agree(keys, view(keys), master, soul)
    && forall w :: TakesUp(view, keys, soul, w)
  }

  predicate TakesUp(view: KeyTable -> KeyTable, keys: KeyTable, soul: SoulId, w: WrappedDek) {
    soul in keys || view(keys[soul := w]) == view(keys)[soul := w]
  }

  lemma ImportSame(t: Tables, view: KeyTable -> KeyTable, sv: Memories.Services, q: Request)
    requires Subject(t, Reachability.ImportCommand(q)).Some? ==>
      Sees(view, t.keys, sv.master, Subject(t, Reachability.ImportCommand(q)).value)
    ensures Imported(t.(keys := view(t.keys)), sv, q) ==
      match Imported(t, sv, q)
      case Err(e) => Err(e)
      case Ok(d) => Ok(d.(tables := d.tables.(keys := view(d.tables.keys))))
  {
    if Validation(q).Pass? && Open(t.keys, sv.master, q.target).Ok? {
      var o := Open(t.keys, sv.master, q.target).value;
      if q.target.NewSoul? { assert TakesUp(view, t.keys, o.soul, o.keys[o.soul]); }
      assert Open(view(t.keys), sv.master, q.target) == Ok(o.(keys := view(o.keys)));
      FillSame(t, sv, o, q, view(o.keys), t.(keys := view(t.keys)));
    }
  }

  lemma SameStep(t: Tables, view: KeyTable -> KeyTable, sv: Memories.Services, c: Reachability.Command)
    requires Subject(t, c).Some? ==> Sees(view, t.keys, sv.master, Subject(t, c).value)
    ensures var after := Reachability.Step(t, sv, c);
            Reachability.Step(t.(keys := view(t.keys)), sv, c) == after.(keys := view(after.keys))
  {
    var seen := t.(keys := view(t.keys));
    match c
    case CreateSoul(soul, dek, nonce) => assert TakesUp(view, t.keys, soul, WrapDek(dek, sv.master, nonce, Aad(soul, DekDomain)));
    case CoreCommand(op) => assert Reachability.WriteCore(seen, sv.master, op) == Reachability.WriteCore(t, sv.master, op);
    case FactCommand(op) => FactsAlike(t.keys, seen.keys, sv.master, t.facts, op);
    case PropertyCommand(op) => PropertiesAlike(t.keys, seen.keys, sv.master, t.properties, op);
    case AdaptationCommand(op) => AdaptationsAlike(t, seen.keys, sv.master, op);
    case MemoryCommand(op) =>
    case ImportCommand(q) => ImportSame(t, view, sv, q);
  }

  // ---- through the cache ----

  /** The entry the cache would answer with has no row in the table. */
  predicate Stale(keys: KeyTable, cache: KeyCache.Cached, ttl: real, soul: SoulId, now: Time) {
    soul !in keys && KeyCache.Hit(cache, ttl, soul, now).Some?
  }

  function Through(cache: KeyCache.Cached, s: KeyCache.Setting, now: Time): KeyTable -> KeyTable {
    (keys: KeyTable) => AsCached(keys, cache, s.ttl, s.master, now)
  }

  lemma CacheSees(s: KeyCache.Setting, ops: seq<KeyCache.Op>, soul: SoulId, now: Time)
    requires KeyCache.FreshIds(ops)
    requires !Stale(KeyCache.Run(s, ops).keys, KeyCache.Run(s, ops).cache, s.ttl, soul, now)
    ensures Sees(Through(KeyCache.Run(s, ops).cache, s, now), KeyCache.Run(s, ops).keys, s.master, soul)
  {
    var r := KeyCache.Run(s, ops);
    AnswersAsCached(r.keys, r.cache, s.ttl, s.master, now, soul);
    KeyCache.CacheDiffersOnlyOffTable(s, ops, soul, now);
    forall w ensures TakesUp(Through(r.cache, s, now), r.keys, soul, w) {
      if soul !in r.keys {
        assert AsCached(r.keys[soul := w], r.cache, s.ttl, s.master, now)
            == AsCached(r.keys, r.cache, s.ttl, s.master, now)[soul := w];
      }
    }
  }

  /** A soul id that was never generated has no entry. */
  lemma NewIsNotStale(s: KeyCache.Setting, ops: seq<KeyCache.Op>, soul: SoulId, now: Time)
    requires KeyCache.FreshIds(ops) && !KeyCache.Begun(ops, soul)
    ensures !Stale(KeyCache.Run(s, ops).keys, KeyCache.Run(s, ops).cache, s.ttl, soul, now)
  {
    KeyCache.RunIsCoherent(s, ops, soul);
  }

  /**
    Whatever lookups, soul creations, commits and aborts went before, and whatever the clock reads: every
    command, imports and soul creations included, leaves the same tables through the cache as with the key
    table, unless the cache holds a stale entry of the soul it is about.
   */
  lemma CachedWritesAgree(s: KeyCache.Setting, ops: seq<KeyCache.Op>, t: Tables, sv: Memories.Services,
                          c: Reachability.Command, now: Time)
    requires KeyCache.FreshIds(ops) && t.keys == KeyCache.Run(s, ops).keys && sv.master == s.master
    requires Subject(t, c).Some? ==> !Stale(t.keys, KeyCache.Run(s, ops).cache, s.ttl, Subject(t, c).value, now)
    ensures var view, after := Through(KeyCache.Run(s, ops).cache, s, now), Reachability.Step(t, sv, c);
            Reachability.Step(t.(keys := view(t.keys)), sv, c) == after.(keys := view(after.keys))
  {
    if Subject(t, c).Some? { CacheSees(s, ops, Subject(t, c).value, now); }
    SameStep(t, Through(KeyCache.Run(s, ops).cache, s, now), sv, c);
  }

  // ---- the lookups of one import, each at its own time ----

  /** The session's table holds the key that the process keeps for the soul, committed or in its open transaction. */
  predicate Kept(s: KeyCache.Setting, ops: seq<KeyCache.Op>, keys: KeyTable, soul: SoulId) {
    var r, dek := KeyCache.Run(s, ops), KeyCache.TableDek(keys, s.master, soul);
    dek.Ok? && (KeyCache.TableDek(r.keys, s.master, soul) == dek || KeyCache.TableDek(r.open, s.master, soul) == dek)
  }

  lemma KeptAgrees(s: KeyCache.Setting, ops: seq<KeyCache.Op>, keys: KeyTable, soul: SoulId, now: Time)
    requires KeyCache.FreshIds(ops) && Kept(s, ops, keys, soul)
    ensures Agree(keys, AsCached(keys, KeyCache.Run(s, ops).cache, s.ttl, s.master, now), s.master, soul)
  {
    KeyCache.RunIsCoherent(s, ops, soul);
    AnswersAsCached(keys, KeyCache.Run(s, ops).cache, s.ttl, s.master, now, soul);
  }

  /**
    An import sets each property through the cache as it is by then, with whatever other sessions did in
    between: the loop stores what it would store with the key table.
   */
  lemma ImportedPropertiesAgree(s: KeyCache.Setting, ops: nat -> seq<KeyCache.Op>, clock: nat -> Time, keys: KeyTable, soul: SoulId,
                                recs: seq<PropertyRecord>, mode: Mode, draw: nat -> Nonce, c: PropertyCount)
    requires forall i :: KeyCache.FreshIds(ops(i)) && Kept(s, ops(i), keys, soul)
    ensures PropertiesThrough((i: nat) => AsCached(keys, KeyCache.Run(s, ops(i)).cache, s.ttl, s.master, clock(i)), s.master, soul,
                              recs, mode, draw, 0, c)
         == PropertiesFrom(keys, s.master, soul, recs, mode, draw, 0, c)
  {
    var views := (i: nat) => AsCached(keys, KeyCache.Run(s, ops(i)).cache, s.ttl, s.master, clock(i));
    forall j | 0 <= j < |recs| ensures Agree(keys, views(j), s.master, soul) {
      KeptAgrees(s, ops(j), keys, soul, clock(j));
    }
    PropertiesLoopAlike(views, keys, s.master, soul, recs, mode, draw, 0, c);
  }
}
