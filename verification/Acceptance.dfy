/**
  Which bundles an import accepts. The ids the database generates are new, so what can still go wrong
  is the request itself, the target, a CHECK constraint, or a repeated version.
 */
module Acceptance {
  import opened Prelude
  import opened Crypto
  import opened Store
  import opened KeyCache
  import opened Export
  import opened Import
  import opened Portability
  import SelfCore
  import Facts
  import Adaptations
  import Memories

  // ---- fresh ids ----

  /** The draws from `i` on have distinct ids. */
  ghost predicate DistinctDraws(draw: nat -> Draw, i: nat) {
    forall j, k :: i <= j < k ==> draw(j).id != draw(k).id
  }

  ghost predicate FreshFacts(facts: FactTable, draw: nat -> Draw, i: nat) {
    DistinctDraws(draw, i) && forall j :: i <= j ==> !Facts.IdTaken(facts, draw(j).id)
  }

  ghost predicate FreshAdaptations(t: AdaptationTable, draw: nat -> Draw, i: nat) {
    DistinctDraws(draw, i) && forall j :: i <= j ==> !Adaptations.IdTaken(t, draw(j).id)
  }

  ghost predicate FreshMemories(t: MemoryTable, draw: nat -> Draw, i: nat) {
    DistinctDraws(draw, i) && forall j :: i <= j ==> !Memories.IdTaken(t, draw(j).id)
  }

  ghost predicate FreshDraws(t: Tables, d: Draws) {
    FreshFacts(t.facts, d.facts, 0) && FreshAdaptations(t.adaptations, d.adaptations, 0) && FreshMemories(t.memories, d.memories, 0)
  }

  /** The embedding service answers with vectors of the column's dimension. */
  ghost predicate EmbedsRight(embed: string -> seq<real>) {
    forall text :: |embed(text)| == EMBEDDING_DIM
  }

  // ---- facts ----

  predicate StatusOk(f: FactRecord) { !PlainOf(f).status.OtherLiveness? }

  lemma StoringFact(facts: FactTable, k: FactKey, row: FactRow, mode: Mode, draw: nat -> Draw, i: nat)
    requires FreshFacts(facts, draw, i) && row.id == draw(i).id
    ensures StoreFact(facts, k, row, mode).Ok? <==> !row.status.OtherLiveness?
    ensures !row.status.OtherLiveness? ==> FreshFacts(StoreFact(facts, k, row, mode).value, draw, i + 1)
  {
    assert !Facts.IdTaken(facts, draw(i).id);
    if !row.status.OtherLiveness? {
      var facts' := StoreFact(facts, k, row, mode).value;
      forall j | i + 1 <= j ensures !Facts.IdTaken(facts', draw(j).id) {
        assert !Facts.IdTaken(facts, draw(j).id) && draw(i).id != draw(j).id;
      }
    }
  }

  lemma {:induction false} FactsAccepted(facts: FactTable, soul: SoulId, dek: Key, s: seq<FactRecord>, mode: Mode,
                                         draw: nat -> Draw, i: nat)
    requires i <= |s| && FreshFacts(facts, draw, i)
    ensures FactsFrom(facts, soul, dek, s, mode, draw, i).Ok? <==> forall j :: i <= j < |s| ==> StatusOk(s[j])
    decreases |s| - i
  {
    if i < |s| {
      var k, row := FactKeyOf(s[i], soul), FactRowOf(s[i], soul, dek, draw(i));
      assert row.status == PlainOf(s[i]).status;
      StoringFact(facts, k, row, mode, draw, i);
      if StatusOk(s[i]) {
        FactsAccepted(StoreFact(facts, k, row, mode).value, soul, dek, s, mode, draw, i + 1);
      }
    }
  }

  // ---- adaptations ----

  /** Within the CHECK constraints on category and status. */
  predicate Storable(a: AdaptationRecord) {
    !a.category.OtherCategory? && !NormalAdaptation(a).status.value.OtherLifecycle?
  }

  lemma StoringAdaptation(keys: KeyTable, master: Key, t: AdaptationTable, soul: SoulId, a: AdaptationRecord,
                          draw: nat -> Draw, now: Time, i: nat)
    requires FreshAdaptations(t, draw, i) && TableDek(keys, master, soul).Ok?
    ensures var (t', r) := Adaptations.Apply(keys, master, t, AdaptationOp(a, soul, draw(i), now));
            (r.Pass? <==> Storable(a)) && (r.Pass? ==> FreshAdaptations(t', draw, i + 1))
  {
    assert !Adaptations.IdTaken(t, draw(i).id);
    if Storable(a) {
      var row := AdaptationApplied(keys, master, t, soul, a, draw(i), now);
      var t' := t + [row];
      assert row.id == draw(i).id by { assert t'[|t|] == row; }
      forall j | i + 1 <= j ensures !Adaptations.IdTaken(t', draw(j).id) {
        assert !Adaptations.IdTaken(t, draw(j).id) && draw(i).id != draw(j).id;
      }
    }
  }

  lemma {:induction false} AdaptationsAccepted(keys: KeyTable, master: Key, t: AdaptationTable, soul: SoulId,
                                               s: seq<AdaptationRecord>,
                                               draw: nat -> Draw, now: Time, i: nat)
    requires i <= |s| && FreshAdaptations(t, draw, i) && TableDek(keys, master, soul).Ok?
    ensures AdaptationsFrom(keys, master, t, soul, s, draw, now, i).Ok? <==> forall j :: i <= j < |s| ==> Storable(s[j])
    decreases |s| - i
  {
    if i < |s| {
      StoringAdaptation(keys, master, t, soul, s[i], draw, now, i);
      if Storable(s[i]) {
        AdaptationsAccepted(keys, master, Adaptations.Apply(keys, master, t, AdaptationOp(s[i], soul, draw(i), now)).0,
                            soul, s, draw, now, i + 1);
      }
    }
  }

  // ---- memories ----

  lemma StoringMemory(keys: KeyTable, sv: Memories.Services, t: MemoryTable, soul: SoulId, m: MemoryRecord, recompute: bool,
                      draw: nat -> Draw, now: Time, i: nat)
    requires EmbedsRight(sv.embed) && FreshMemories(t, draw, i) && TableDek(keys, sv.master, soul).Ok?
    ensures var (t', r) := Memories.Apply(keys, sv, t, MemoryOp(m, soul, recompute, sv.embed, draw(i), now));
            r.Pass? && FreshMemories(t', draw, i + 1)
  {
    assert !Memories.IdTaken(t, draw(i).id);
    assert |EmbeddingFor(m, recompute, sv.embed)| == EMBEDDING_DIM;
    var row := MemoryApplied(keys, sv, t, soul, m, recompute, draw(i), now);
    var t' := t + [row];
    assert row.id == draw(i).id by { assert t'[|t|] == row; }
    forall j | i + 1 <= j ensures !Memories.IdTaken(t', draw(j).id) {
      assert !Memories.IdTaken(t, draw(j).id) && draw(i).id != draw(j).id;
    }
  }

  lemma {:induction false} MemoriesAccepted(keys: KeyTable, sv: Memories.Services, t: MemoryTable, soul: SoulId,
                                            s: seq<MemoryRecord>,
                                            recompute: bool, draw: nat -> Draw, now: Time, i: nat)
    requires i <= |s| && EmbedsRight(sv.embed) && FreshMemories(t, draw, i) && TableDek(keys, sv.master, soul).Ok?
    ensures MemoriesFrom(keys, sv, t, soul, s, recompute, draw, now, i).Ok?
    decreases |s| - i
  {
    if i < |s| {
      StoringMemory(keys, sv, t, soul, s[i], recompute, draw, now, i);
      MemoriesAccepted(keys, sv, Memories.Apply(keys, sv, t, MemoryOp(s[i], soul, recompute, sv.embed, draw(i), now)).0,
                       soul, s, recompute, draw, now, i + 1);
    }
  }

  // ---- the whole bundle ----

  /** A version repeats in the bundle, and the target has no Self Core for it to be merged into. */
  ghost predicate RepeatsVersion(l: Ledger, soul: SoulId, b: Bundle) {
    HasCore(b) && soul !in l.cores && !SelfCore.DistinctVersions(b.core.history)
  }

  lemma CoreAccepted(l: Ledger, soul: SoulId, b: Bundle, user: string, dek: Key, nonce: Nonce, draw: nat -> Nonce)
    requires SelfCore.SoulInv(l, soul)
    ensures SelfCore.Bundle(l, soul, b.core, user, dek, nonce, draw).Ok? <==> !RepeatsVersion(l, soul, b)
  {
  }

  ghost predicate RowsAccepted(b: Bundle) {
    (forall j :: 0 <= j < |b.facts| ==> StatusOk(b.facts[j])) && (forall j :: 0 <= j < |b.adaptations| ==> Storable(b.adaptations[j]))
  }

  lemma FillSucceedsIff(t: Tables, sv: Memories.Services, o: Opening, q: Request)
    requires SelfCore.LedgerInv(t.ledger) && EmbedsRight(sv.embed) && FreshDraws(t, q.draws) && TableDek(o.keys, sv.master, o.soul).Ok?
    ensures Fill(t, sv, o, q).Ok? <==> !RepeatsVersion(t.ledger, o.soul, q.bundle) && RowsAccepted(q.bundle)
  {
    var b := q.bundle;
    assert SelfCore.SoulInv(t.ledger, o.soul);
    CoreAccepted(t.ledger, o.soul, b, q.user, o.dek, q.draws.core, q.draws.history);
    FactsAccepted(t.facts, o.soul, o.dek, b.facts, q.mode, q.draws.facts, 0);
    AdaptationsAccepted(o.keys, sv.master, t.adaptations, o.soul, b.adaptations, q.draws.adaptations, q.now, 0);
    MemoriesAccepted(o.keys, sv, t.memories, o.soul, b.memories, q.recompute, q.draws.memories, q.now, 0);
  }

  // -- the request and its target, said without the import --

  predicate WellFormed(q: Request) {
    q.bundle.schemaVersion == 1 && q.bundle.hasSource && q.bundle.hasCore && (q.mode == Overwrite || q.mode == Skip)
  }

  /** A soul whose key opens, or a new soul of an existing user with a free slug and an unused id. */
  predicate TargetThere(keys: KeyTable, master: Key, target: Target) {
    match target
    case Unspecified => false
    case Into(None) => false
    case Into(Some(soul)) => TableDek(keys, master, soul).Ok?
    case NewSoul(userExists, slugFree, id, _, _) => userExists && slugFree && id !in keys
  }

  function SoulFor(target: Target): SoulId
    requires target.NewSoul? || (target.Into? && target.soul.Some?)
  {
    if target.NewSoul? then target.id else target.soul.value
  }

  /** Every status and category is one the tables allow; one left out is. */
  ghost predicate AllowedRows(b: Bundle) {
    && (forall j :: 0 <= j < |b.facts| ==> b.facts[j].status in {None, Some(Active), Some(Deleted)})
    && forall j :: 0 <= j < |b.adaptations| ==>
         && !b.adaptations[j].category.OtherCategory?
         && b.adaptations[j].status in {None, Some(Current), Some(Superseded), Some(Dismissed)}
  }

  /** Content for a soul without a Self Core brings its history, in which no version may repeat. */
  ghost predicate HistoryFits(l: Ledger, soul: SoulId, b: Bundle) {
    b.core.content in {None, Some("")} || soul in l.cores || SelfCore.DistinctVersions(b.core.history)
  }

  lemma AllowedIff(b: Bundle)
    ensures RowsAccepted(b) <==> AllowedRows(b)
  {
    forall j | 0 <= j < |b.facts|
      ensures StatusOk(b.facts[j]) <==> b.facts[j].status in {None, Some(Active), Some(Deleted)}
    {
    }
    forall j | 0 <= j < |b.adaptations|
      ensures Storable(b.adaptations[j]) <==>
        && !b.adaptations[j].category.OtherCategory?
        && b.adaptations[j].status in {None, Some(Current), Some(Superseded), Some(Dismissed)}
    {
    }
  }

  lemma OpensIff(keys: KeyTable, master: Key, target: Target)
    ensures Open(keys, master, target).Ok? <==> TargetThere(keys, master, target)
    ensures TargetThere(keys, master, target) ==> Open(keys, master, target).value.soul == SoulFor(target)
  {
  }

  /**
    An import succeeds if and only if the request is well-formed, its target is there, every status and
    category is one the tables allow, and no version repeats in a history that would be inserted.
   */
  lemma ImportSucceedsIff(t: Tables, sv: Memories.Services, q: Request)
    requires SelfCore.LedgerInv(t.ledger) && EmbedsRight(sv.embed) && FreshDraws(t, q.draws)
    ensures Imported(t, sv, q).Ok? <==>
      && WellFormed(q) && TargetThere(t.keys, sv.master, q.target)
      && HistoryFits(t.ledger, SoulFor(q.target), q.bundle) && AllowedRows(q.bundle)
  {
    OpensIff(t.keys, sv.master, q.target);
    AllowedIff(q.bundle);
    HasCoreIff(q.bundle);
    if Open(t.keys, sv.master, q.target).Ok? {
      OpenedHasKey(t.keys, sv.master, q.target);
      FillSucceedsIff(t, sv, Open(t.keys, sv.master, q.target).value, q);
    }
  }

  lemma HasCoreIff(b: Bundle)
    ensures HasCore(b) <==> b.core.content !in {None, Some("")}
  {
    if b.core.content.Some? { assert b.core.content == Some("") <==> b.core.content.value == ""; }
  }

  lemma OpenedKeys(keys: KeyTable, master: Key, target: Target)
    requires Open(keys, master, target).Ok?
    ensures var o := Open(keys, master, target).value;
      && o.created == target.NewSoul? && (target.Into? ==> o.keys == keys)
      && (target.NewSoul? ==> TableDek(o.keys, master, target.id) == Ok(target.dek) && target.id !in keys
                              && o.keys - {target.id} == keys)
  {
    if target.NewSoul? { assert Open(keys, master, target).value.keys - {target.id} == keys; }
  }

  /** It goes to the soul that was asked for: a merge leaves the keys as they are, a new soul gets the new key. */
  lemma ImportGoesToTarget(t: Tables, sv: Memories.Services, q: Request)
    requires Imported(t, sv, q).Ok?
    ensures TargetThere(t.keys, sv.master, q.target) && TargetOf(t, sv, q) == SoulFor(q.target)
    ensures var Done(t', stats) := Imported(t, sv, q).value;
      && stats.createdNew == q.target.NewSoul?
      && stats.selfCore == (if q.bundle.core.content in {None, Some("")} then 0 else 1)
      && (q.target.Into? ==> t'.keys == t.keys)
      && (q.target.NewSoul? ==>
            && TableDek(t'.keys, sv.master, q.target.id) == Ok(q.target.dek)
            && t'.keys - {q.target.id} == t.keys && q.target.id !in t.keys)
  {
    OpensIff(t.keys, sv.master, q.target);
    OpenedKeys(t.keys, sv.master, q.target);
    HasCoreIff(q.bundle);
    var o := Parts(t, sv, q);
  }

  /** What a refused request is told, before anything is stored. */
  lemma ImportRefusals(t: Tables, sv: Memories.Services, q: Request)
    requires !WellFormed(q) || !TargetThere(t.keys, sv.master, q.target)
    ensures Imported(t, sv, q) == Err(
      if q.bundle.schemaVersion != 1 then UnsupportedVersion
      else if !q.bundle.hasSource then MissingSource
      else if !q.bundle.hasCore then MissingCore
      else if q.mode.OtherMode? then BadMode
      else
        match q.target
        case Unspecified => NoTarget
        case Into(None) => NoSuchSoul
        case Into(Some(soul)) => Portability.Unreadable(if soul in t.keys then BadTag else NoKey)
        case NewSoul(userExists, _, _, _, _) => if userExists then Portability.Database(UniqueViolation) else NoSuchUser)
  {
  }

  // ---- fresh draws can always be had ----

  lemma {:induction false} FactIdBound(facts: FactTable, ks: set<FactKey>) returns (bound: nat)
    requires ks <= facts.Keys
    ensures forall k :: k in ks ==> facts[k].id < bound
    decreases ks
  {
    bound := 0;
    if ks != {} {
      var k :| k in ks;
      bound := FactIdBound(facts, ks - {k});
      if bound <= facts[k].id { bound := facts[k].id + 1; }
    }
  }

  lemma {:induction false} IdBound<R>(t: seq<R>, idOf: R -> nat) returns (bound: nat)
    ensures forall i :: 0 <= i < |t| ==> idOf(t[i]) < bound
  {
    bound := 0;
    if t != [] {
      bound := IdBound(t[..|t| - 1], idOf);
      if bound <= idOf(t[|t| - 1]) { bound := idOf(t[|t| - 1]) + 1; }
    }
  }

  /** Whatever the tables hold, there are fresh draws. */
  lemma FreshDrawsExist(t: Tables) returns (d: Draws)
    ensures FreshDraws(t, d)
  {
    var f := FactIdBound(t.facts, t.facts.Keys);
    var a := IdBound(t.adaptations, (row: AdaptationRow) => row.id);
    var m := IdBound(t.memories, (row: MemoryRow) => row.id);
    d := Draws(0, (i: nat) => i, (i: nat) => Draw(f + i, i), (i: nat) => i, (i: nat) => Draw(a + i, i),
               (i: nat) => Draw(m + i, i));
  }
}
