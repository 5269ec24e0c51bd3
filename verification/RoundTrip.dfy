/**
  Exporting a soul, importing the bundle as a new soul and exporting that: the second bundle equals the
  first, except for what an import is known to drop.
 */
module RoundTrip {
  import opened Prelude
  import opened Crypto
  import opened Store
  import opened Ordering
  import opened KeyCache
  import opened Export
  import opened Import
  import opened Portability
  import opened Acceptance
  import Merge
  import SelfCore
  import Facts
  import Properties
  import Adaptations
  import Memories

  // ---- Self Core ----

  lemma {:induction false} MaxVersionBelow(h: seq<SelfCore.BundleVersion>, bound: int)
    requires 0 <= bound && forall i :: 0 <= i < |h| ==> h[i].version <= bound
    ensures SelfCore.MaxVersion(h) <= bound
  {
    if |h| > 1 {
      MaxVersionBelow(h[..|h| - 1], bound);
    }
  }

  lemma VersionsAscend(h: seq<SelfCore.BundleVersion>, history: map<VersionKey, HistoryRow>, soul: SoulId)
    requires HistoryExport(h, history, soul)
    ensures SelfCore.DistinctVersions(h)
    ensures forall i :: 0 <= i < |h| ==> VersionKey(soul, h[i].version) in history
  {
    var vs := Map(VersionNumber, h);
    assert Ascending(vs, IntLess);
    forall i, j | 0 <= i < j < |h| ensures h[i].version != h[j].version {
      assert IntLess(vs[i], vs[j]);
    }
  }

  lemma HasSomeVersion(h: seq<SelfCore.BundleVersion>, history: map<VersionKey, HistoryRow>, soul: SoulId)
    requires HistoryExport(h, history, soul) && h != []
    ensures exists v :: VersionKey(soul, v) in history
  {
    assert VersionKey(soul, h[0].version) in history;
  }

  lemma NoHistoryNoVersions(h: seq<SelfCore.BundleVersion>, history: map<VersionKey, HistoryRow>, soul: SoulId)
    requires HistoryExport(h, history, soul) && forall v :: VersionKey(soul, v) !in history
    ensures h == []
  {
    if h != [] { HasSomeVersion(h, history, soul); }
  }

  /** The archive a bundle brought is exported as the bundle's own. */
  lemma HistoryReadsBack(h: seq<SelfCore.BundleVersion>, h': seq<SelfCore.BundleVersion>, history: map<VersionKey, HistoryRow>,
                         soul: SoulId, dek: Key, user: string, draw: nat -> Nonce)
    requires SelfCore.DistinctVersions(h) && Ascending(Map(VersionNumber, h), IntLess)
    requires forall v :: VersionKey(soul, v) !in history
    requires HistoryExport(h', history + SelfCore.Brought(h, soul, dek, user, draw), soul)
    ensures h' == h
  {
    var brought := SelfCore.Brought(h, soul, dek, user, draw);
    var all, vs := history + brought, Map(VersionNumber, h);
    forall v ensures v in vs <==> v in Versions(all, soul) {
      SelfCore.BroughtKeys(h, soul, dek, user, draw, VersionKey(soul, v));
      if SelfCore.HasVersion(h, v) {
        var i :| 0 <= i < |h| && h[i].version == v;
        assert vs[i] == v;
      }
      assert v in Versions(all, soul) <==> VersionKey(soul, v) in all by { VersionsAt(all, soul, v); }
    }
    IntOrder();
    ListingIsUnique(Map(VersionNumber, h'), vs, Versions(all, soul), IntLess);
    forall i | 0 <= i < |h| ensures h'[i] == h[i] {
      assert Map(VersionNumber, h')[i] == vs[i];
      SelfCore.BroughtAt(h, soul, dek, user, draw, i);
    }
  }

  lemma VersionsAt(history: map<VersionKey, HistoryRow>, soul: SoulId, v: int)
    ensures v in Versions(history, soul) <==> VersionKey(soul, v) in history
  {
    assert VersionKey(soul, v).version == v;
  }

  /** The start version of an exported Self Core is the version it had. */
  lemma ExportedStart(c: SelfCore.BundleCore, l: Ledger, soul: SoulId)
    requires SelfCore.SoulInv(l, soul) && CoreExport(c, l, soul) && soul in l.cores
    ensures SelfCore.StartVersion(c) == l.cores[soul].version
  {
    VersionsAscend(c.history, l.history, soul);
    MaxVersionBelow(c.history, l.cores[soul].version - 1);
  }

  /** The Self Core part: the import succeeds, and the second export equals the first unless the content was empty. */
  lemma CoreRoundTrip(c: SelfCore.BundleCore, l: Ledger, soul: SoulId, target: Ledger, newborn: SoulId, user: string, dek: Key,
                      nonce: Nonce, draw: nat -> Nonce)
    requires SelfCore.SoulInv(l, soul) && CoreExport(c, l, soul)
    requires SelfCore.SoulInv(target, newborn) && newborn !in target.cores
    ensures SelfCore.Bundle(target, newborn, c, user, dek, nonce, draw).Ok?
    ensures forall c' :: CoreExport(c', SelfCore.Bundle(target, newborn, c, user, dek, nonce, draw).value, newborn) ==>
              (c' == c <==> (soul !in l.cores || TextOf(l.cores[soul].content) != ""))
  {
    VersionsAscend(c.history, l.history, soul);
    var r := SelfCore.Bundle(target, newborn, c, user, dek, nonce, draw);
    forall c' | CoreExport(c', r.value, newborn)
      ensures c' == c <==> (soul !in l.cores || TextOf(l.cores[soul].content) != "")
    {
      if soul in l.cores && TextOf(l.cores[soul].content) != "" {
        ExportedStart(c, l, soul);
        HistoryReadsBack(c.history, c'.history, target.history, newborn, dek, user, draw);
      } else if soul !in l.cores {
        NoHistoryNoVersions(c.history, l.history, soul);
        NoHistoryNoVersions(c'.history, target.history, newborn);
      }
    }
  }

  // ---- facts ----

  lemma ExportedFactsRebuild(s: seq<FactRecord>, known: map<Facts.FactName, PlainFact>, mode: Mode)
    requires FactsExport(s, known)
    ensures MergedFacts(map[], s, mode) == known
  {
    var e, names := Map(FactEntry, s), Map(RecordName, s);
    forall n ensures n in known <==> Merge.BroughtFrom(e, 0, n) {
      assert n in names <==> n in known.Keys;
      if n in names {
        var i :| 0 <= i < |names| && names[i] == n;
        assert Merge.Brings(e[i], n);
      }
      if Merge.BroughtFrom(e, 0, n) {
        var i :| 0 <= i < |e| && Merge.Brings(e[i], n);
        assert names[i] == n;
      }
    }
    Merge.Rebuilds(known, e, mode.Skip?);
  }

  lemma NoFacts(facts: FactTable, soul: SoulId, all: bool)
    requires forall k :: k in facts ==> k.soul != soul
    ensures FactsOf(facts, soul, all) == map[]
  {
  }

  /** If all facts of one soul, and the active ones of another, agree, so do their exports. */
  lemma OnlyActive(facts: FactTable, soul: SoulId, facts': FactTable, soul': SoulId, all: bool)
    requires FactsOf(facts', soul', true) == FactsOf(facts, soul, all)
    ensures FactsOf(facts', soul', all) == FactsOf(facts, soul, all)
  {
    if !all {
      forall n ensures Merge.SameAt(FactsOf(facts', soul', false), FactsOf(facts, soul, false), n) {
        FactsOfAt(facts', soul', true, n);
        FactsOfAt(facts', soul', false, n);
        FactsOfAt(facts, soul, false, n);
      }
      Merge.SameMap(FactsOf(facts', soul', false), FactsOf(facts, soul, false));
    }
  }

  // ---- properties ----

  /** The record of an active property is decided by its type and value. */
  function RecordFor(ptype: string, value: Json): PropertyRecord {
    var schema := Properties.SchemaOf(ptype);
    PropertyRecord(ptype, if schema.Some? then schema.value.version else 0, Some(value),
                   schema.Some? && schema.value.sensitive, Active)
  }

  lemma RecordsFromLive(keys: KeyTable, master: Key, props: PropertyTable, soul: SoulId)
    requires Properties.PropertiesOk(keys, master, props)
    ensures PropertiesOf(props, soul).Keys == Properties.Live(props, soul).Keys
    ensures forall p :: p in Properties.Live(props, soul) ==>
              PropertiesOf(props, soul)[p] == RecordFor(p, Properties.Live(props, soul)[p]) && Accepted(PropertiesOf(props, soul)[p])
  {
    forall p
      ensures p in PropertiesOf(props, soul) <==> p in Properties.Live(props, soul)
      ensures p in Properties.Live(props, soul) ==>
        PropertiesOf(props, soul)[p] == RecordFor(p, Properties.Live(props, soul)[p]) && Accepted(PropertiesOf(props, soul)[p])
    {
      PropertiesOfAt(props, soul, p);
      Properties.LiveAt(props, soul, p);
    }
  }

  lemma SameLiveSameRecords(keys: KeyTable, master: Key, props: PropertyTable, soul: SoulId,
                            keys': KeyTable, master': Key, props': PropertyTable, soul': SoulId)
    requires Properties.PropertiesOk(keys, master, props) && Properties.PropertiesOk(keys', master', props')
    requires Properties.Live(props, soul) == Properties.Live(props', soul')
    ensures PropertiesOf(props, soul) == PropertiesOf(props', soul')
  {
    RecordsFromLive(keys, master, props, soul);
    RecordsFromLive(keys', master', props', soul');
  }

  /** The bundle's properties, as entries, bring exactly the types listed. */
  lemma PropertiesBring(s: seq<PropertyRecord>, p: string)
    requires forall i :: 0 <= i < |s| ==> Accepted(s[i])
    ensures Merge.BroughtFrom(Map(PropertyEntry, s), 0, p) <==> p in Map(RecordType, s)
  {
    var e, types := Map(PropertyEntry, s), Map(RecordType, s);
    if p in types {
      var i :| 0 <= i < |types| && types[i] == p;
      assert Merge.Brings(e[i], p);
    }
    if Merge.BroughtFrom(e, 0, p) {
      var i :| 0 <= i < |e| && Merge.Brings(e[i], p);
      assert types[i] == p;
    }
  }

  lemma ExportedPropertiesRebuild(keys: KeyTable, master: Key, props: PropertyTable, soul: SoulId,
                                  s: seq<PropertyRecord>, mode: Mode)
    requires Properties.PropertiesOk(keys, master, props) && PropertiesExport(s, PropertiesOf(props, soul))
    ensures MergedProperties(map[], s, mode) == Properties.Live(props, soul)
  {
    RecordsFromLive(keys, master, props, soul);
    var live := Properties.Live(props, soul);
    RecordsRebuild(s, PropertiesOf(props, soul), live, mode);
  }

  lemma RecordsRebuild(s: seq<PropertyRecord>, records: map<string, PropertyRecord>, live: map<string, Json>, mode: Mode)
    requires PropertiesExport(s, records) && records.Keys == live.Keys
    requires forall p :: p in live ==> records[p].value == Some(live[p]) && Accepted(records[p])
    ensures MergedProperties(map[], s, mode) == live
  {
    forall p ensures p in live <==> Merge.BroughtFrom(Map(PropertyEntry, s), 0, p) {
      PropertiesBring(s, p);
      assert p in Map(RecordType, s) <==> p in records.Keys;
    }
    Merge.Rebuilds(live, Map(PropertyEntry, s), mode.Skip?);
  }

  lemma NoProperties(props: PropertyTable, soul: SoulId)
    requires forall k :: k in props ==> k.soul != soul
    ensures Properties.Live(props, soul) == map[]
  {
  }

  // ---- adaptations and memories ----

  /** Mapping keeps permutations. */
  lemma {:induction false} MapPermutes<A, B>(f: A -> B, s: seq<A>, t: seq<A>)
    requires multiset(s) == multiset(t)
    ensures multiset(Map(f, s)) == multiset(Map(f, t))
    decreases |s|
  {
    if s == [] {
      assert |multiset(t)| == 0;
    } else {
      assert s[0] in multiset(t);
      var i :| 0 <= i < |t| && t[i] == s[0];
      var rest := t[..i] + t[i + 1..];
      Removed(s, t, i);
      MapPermutes(f, s[1..], rest);
      MapRemoved(f, s, t, i);
    }
  }

  lemma Removed<A>(s: seq<A>, t: seq<A>, i: nat)
    requires s != [] && i < |t| && t[i] == s[0] && multiset(s) == multiset(t)
    ensures multiset(s[1..]) == multiset(t[..i] + t[i + 1..])
  {
    assert s == [s[0]] + s[1..];
    assert t == t[..i] + [t[i]] + t[i + 1..];
    assert multiset(s[1..]) == multiset(s) - multiset{s[0]};
    assert multiset(t[..i] + t[i + 1..]) == multiset(t) - multiset{t[i]};
  }

  lemma MapRemoved<A, B>(f: A -> B, s: seq<A>, t: seq<A>, i: nat)
    requires s != [] && i < |t| && t[i] == s[0]
    requires multiset(Map(f, s[1..])) == multiset(Map(f, t[..i] + t[i + 1..]))
    ensures multiset(Map(f, s)) == multiset(Map(f, t))
  {
    assert Map(f, s) == [f(s[0])] + Map(f, s[1..]);
    assert Map(f, t[..i] + t[i + 1..]) == Map(f, t[..i]) + Map(f, t[i + 1..]);
    assert Map(f, t) == Map(f, t[..i]) + [f(t[i])] + Map(f, t[i + 1..]);
  }

  lemma PermutationHolds<A>(s: seq<A>, t: seq<A>, i: nat)
    requires multiset(s) == multiset(t) && i < |s|
    ensures s[i] in t
  {
    assert s[i] in multiset(t);
  }

  /** An exported adaptation says everything, and is within the CHECK constraints. */
  predicate CompleteAdaptation(a: AdaptationRecord, all: bool) {
    && a.confidence.Some? && a.status.Some? && (all || a.status.value.Current?)
    && !a.category.OtherCategory? && !a.status.value.OtherLifecycle?
  }

  lemma {:induction false} ExportedAdaptationsComplete(keys: KeyTable, master: Key, t: AdaptationTable, soul: SoulId, all: bool)
    requires Adaptations.RowsOk(keys, master, t)
    ensures forall a :: a in AdaptationsOf(t, soul, all) ==> CompleteAdaptation(a, all)
  {
    if t != [] {
      ExportedAdaptationsComplete(keys, master, t[..|t| - 1], soul, all);
      assert Adaptations.RowOk(t[|t| - 1], TableDek(keys, master, t[|t| - 1].soul));
    }
  }

  lemma {:induction false} CompleteAdaptationsKept(s: seq<AdaptationRecord>, all: bool, i: nat)
    requires i <= |s| && forall j :: 0 <= j < |s| ==> CompleteAdaptation(s[j], all)
    ensures AdaptationsBrought(s, all, i) == Map(KeptAdaptation, s[i..])
    decreases |s| - i
  {
    if i < |s| {
      CompleteAdaptationsKept(s, all, i + 1);
      assert s[i..] == [s[i]] + s[i + 1..];
      assert NormalAdaptation(s[i]) == KeptAdaptation(s[i]);
    }
  }

  lemma {:induction false} NoAdaptations(t: AdaptationTable, soul: SoulId, all: bool)
    requires forall i :: 0 <= i < |t| ==> t[i].soul != soul
    ensures AdaptationsOf(t, soul, all) == []
  {
    if t != [] { NoAdaptations(t[..|t| - 1], soul, all); }
  }

  predicate CompleteMemory(m: MemoryRecord, all: bool) {
    && m.salience.Some? && m.status.Some? && (all || m.status.value.Confirmed? || m.status.value.Pending?)
    && |m.embedding| == EMBEDDING_DIM
  }

  lemma {:induction false} ExportedMemoriesComplete(keys: KeyTable, master: Key, t: MemoryTable, soul: SoulId, all: bool)
    requires Memories.RowsOk(keys, master, t)
    ensures forall m :: m in MemoriesOf(t, soul, all) ==> CompleteMemory(m, all)
  {
    if t != [] {
      ExportedMemoriesComplete(keys, master, t[..|t| - 1], soul, all);
      assert Memories.RowOk(t[|t| - 1], TableDek(keys, master, t[|t| - 1].soul));
    }
  }

  /** What an import carries over of an exported memory: its vector only if it is not computed again. */
  function CarriedMemory(m: MemoryRecord, recompute: bool, embed: string -> seq<real>): MemoryRecord {
    if recompute then KeptMemory(m).(embedding := embed(m.content)) else KeptMemory(m)
  }

  function Carry(recompute: bool, embed: string -> seq<real>): MemoryRecord -> MemoryRecord {
    (m: MemoryRecord) => CarriedMemory(m, recompute, embed)
  }

  lemma {:induction false} CompleteMemoriesKept(s: seq<MemoryRecord>, recompute: bool, embed: string -> seq<real>,
                                                all: bool, i: nat)
    requires i <= |s| && forall j :: 0 <= j < |s| ==> CompleteMemory(s[j], all)
    ensures MemoriesBrought(s, recompute, embed, all, i) == Map(Carry(recompute, embed), s[i..])
    decreases |s| - i
  {
    if i < |s| {
      CompleteMemoriesKept(s, recompute, embed, all, i + 1);
      assert s[i..] == [s[i]] + s[i + 1..];
      assert NormalMemory(s[i], recompute, embed) == CarriedMemory(s[i], recompute, embed);
    }
  }

  lemma {:induction false} NoMemories(t: MemoryTable, soul: SoulId, all: bool)
    requires forall i :: 0 <= i < |t| ==> t[i].soul != soul
    ensures MemoriesOf(t, soul, all) == []
  {
    if t != [] { NoMemories(t[..|t| - 1], soul, all); }
  }

  // ---- the round trip ----

  /** A request to import `b` as a new soul. */
  ghost predicate AsNewSoul(q: Request, b: Bundle, target: Tables) {
    && q.bundle == b && !q.mode.OtherMode? && q.target.NewSoul? && q.target.userExists && q.target.slugFree
    && q.target.id !in target.keys && FreshDraws(target, q.draws)
  }

  lemma NoCoreYet(t: Tables, master: Key, soul: SoulId)
    requires CoresOk(t.keys, master, t.ledger) && soul !in t.keys
    ensures soul !in t.ledger.cores && (forall v :: VersionKey(soul, v) !in t.ledger.history)
  {
    assert TableDek(t.keys, master, soul).Err?;
    forall v ensures VersionKey(soul, v) !in t.ledger.history {
      assert VersionKey(soul, v).soul == soul;
    }
  }

  lemma NoFactsYet(t: Tables, master: Key, soul: SoulId)
    requires Facts.RowsOk(t.keys, master, t.facts) && soul !in t.keys
    ensures FactsOf(t.facts, soul, true) == map[]
  {
    assert TableDek(t.keys, master, soul).Err?;
    NoFacts(t.facts, soul, true);
  }

  lemma NoPropertiesYet(t: Tables, master: Key, soul: SoulId)
    requires Properties.PropertiesOk(t.keys, master, t.properties) && soul !in t.keys
    ensures Properties.Live(t.properties, soul) == map[]
  {
    assert TableDek(t.keys, master, soul) == Err(NoKey);
    NoProperties(t.properties, soul);
  }

  lemma NoAdaptationsYet(t: Tables, master: Key, soul: SoulId, all: bool)
    requires Adaptations.RowsOk(t.keys, master, t.adaptations) && soul !in t.keys
    ensures AdaptationsOf(t.adaptations, soul, all) == []
  {
    forall i | 0 <= i < |t.adaptations| ensures t.adaptations[i].soul != soul {
      assert Adaptations.RowOk(t.adaptations[i], TableDek(t.keys, master, t.adaptations[i].soul));
    }
    NoAdaptations(t.adaptations, soul, all);
  }

  lemma NoMemoriesYet(t: Tables, master: Key, soul: SoulId, all: bool)
    requires Memories.RowsOk(t.keys, master, t.memories) && soul !in t.keys
    ensures MemoriesOf(t.memories, soul, all) == []
  {
    forall i | 0 <= i < |t.memories| ensures t.memories[i].soul != soul {
      assert Memories.RowOk(t.memories[i], TableDek(t.keys, master, t.memories[i].soul));
    }
    NoMemories(t.memories, soul, all);
  }

  lemma ExportIsComplete(b: Bundle, t: Tables, master: Key, soul: SoulId, all: bool)
    requires Healthy(t, master) && IsExport(b, t, soul, all)
    ensures forall j :: 0 <= j < |b.facts| ==> StatusOk(b.facts[j])
    ensures forall j :: 0 <= j < |b.adaptations| ==> CompleteAdaptation(b.adaptations[j], all)
    ensures forall j :: 0 <= j < |b.memories| ==> CompleteMemory(b.memories[j], all)
  {
    ExportedAdaptationsComplete(t.keys, master, t.adaptations, soul, all);
    ExportedMemoriesComplete(t.keys, master, t.memories, soul, all);
    forall j | 0 <= j < |b.adaptations| { PermutationHolds(b.adaptations, AdaptationsOf(t.adaptations, soul, all), j); }
    forall j | 0 <= j < |b.memories| { PermutationHolds(b.memories, MemoriesOf(t.memories, soul, all), j); }
    forall j | 0 <= j < |b.facts| ensures StatusOk(b.facts[j]) {
      FactsOfAt(t.facts, soul, all, b.facts[j].name);
    }
  }

  lemma NewSoulOpens(target: Tables, sv: Memories.Services, q: Request, b: Bundle) returns (o: Opening)
    requires AsNewSoul(q, b, target)
    ensures Open(target.keys, sv.master, q.target) == Ok(o) && o.soul == q.target.id
    ensures TableDek(o.keys, sv.master, o.soul) == Ok(o.dek)
  {
    o := Open(target.keys, sv.master, q.target).value;
  }

  lemma ExportIsAccepted(b: Bundle, t: Tables, master: Key, soul: SoulId, all: bool)
    requires Healthy(t, master) && IsExport(b, t, soul, all)
    ensures RowsAccepted(b) && SelfCore.DistinctVersions(b.core.history)
  {
    ExportIsComplete(b, t, master, soul, all);
    VersionsAscend(b.core.history, t.ledger.history, soul);
  }

  lemma AcceptedAsNewSoul(b: Bundle, target: Tables, sv: Memories.Services, q: Request)
    requires b.schemaVersion == EXPORT_SCHEMA_VERSION && b.hasSource && b.hasCore
    requires RowsAccepted(b) && SelfCore.DistinctVersions(b.core.history)
    requires SelfCore.LedgerInv(target.ledger) && AsNewSoul(q, b, target) && EmbedsRight(sv.embed)
    ensures Imported(target, sv, q).Ok? && TargetOf(target, sv, q) == q.target.id
  {
    var o := NewSoulOpens(target, sv, q, b);
    ImportSucceedsIff(target, sv, q);
  }

  /** A healthy soul's bundle always imports as a new soul. */
  lemma ExportImports(b: Bundle, t: Tables, master: Key, soul: SoulId, all: bool, target: Tables,
                      sv: Memories.Services, q: Request)
    requires Healthy(t, master) && IsExport(b, t, soul, all)
    requires Healthy(target, sv.master) && AsNewSoul(q, b, target) && EmbedsRight(sv.embed)
    ensures Imported(target, sv, q).Ok? && TargetOf(target, sv, q) == q.target.id
  {
    ExportIsAccepted(b, t, master, soul, all);
    AcceptedAsNewSoul(b, target, sv, q);
  }

  lemma FactsRoundTrip(b: Bundle, t: Tables, soul: SoulId, all: bool, t': Tables, soul': SoulId, b': Bundle, mode: Mode)
    requires FactsExport(b.facts, FactsOf(t.facts, soul, all)) && FactsExport(b'.facts, FactsOf(t'.facts, soul', all))
    requires FactsOf(t'.facts, soul', true) == MergedFacts(map[], b.facts, mode)
    ensures b'.facts == b.facts
  {
    ExportedFactsRebuild(b.facts, FactsOf(t.facts, soul, all), mode);
    OnlyActive(t.facts, soul, t'.facts, soul', all);
    FactsExportIsUnique(b.facts, b'.facts, FactsOf(t.facts, soul, all));
  }

  lemma PropertiesRoundTrip(b: Bundle, t: Tables, master: Key, soul: SoulId, t': Tables, master': Key, soul': SoulId,
                            b': Bundle, mode: Mode)
    requires Properties.PropertiesOk(t.keys, master, t.properties) && Properties.PropertiesOk(t'.keys, master', t'.properties)
    requires PropertiesExport(b.properties, PropertiesOf(t.properties, soul))
    requires PropertiesExport(b'.properties, PropertiesOf(t'.properties, soul'))
    requires Properties.Live(t'.properties, soul') == MergedProperties(map[], b.properties, mode)
    ensures b'.properties == b.properties
  {
    ExportedPropertiesRebuild(t.keys, master, t.properties, soul, b.properties, mode);
    SameLiveSameRecords(t.keys, master, t.properties, soul, t'.keys, master', t'.properties, soul');
    PropertiesExportIsUnique(b.properties, b'.properties, PropertiesOf(t.properties, soul));
  }

  lemma {:induction false} AdaptationsRoundTrip(b: Bundle, all: bool, t': Tables, newborn: SoulId, b': Bundle)
    requires forall j :: 0 <= j < |b.adaptations| ==> CompleteAdaptation(b.adaptations[j], all)
    requires KeptAdaptations(t'.adaptations, newborn, all) == [] + AdaptationsBrought(b.adaptations, all, 0)
    requires multiset(b'.adaptations) == multiset(AdaptationsOf(t'.adaptations, newborn, all))
    ensures multiset(Map(KeptAdaptation, b'.adaptations)) == multiset(Map(KeptAdaptation, b.adaptations))
  {
    CompleteAdaptationsKept(b.adaptations, all, 0);
    assert b.adaptations[0..] == b.adaptations;
    MapPermutes(KeptAdaptation, b'.adaptations, AdaptationsOf(t'.adaptations, newborn, all));
  }

  lemma MemoriesRoundTrip(b: Bundle, all: bool, recompute: bool, embed: string -> seq<real>, t': Tables,
                          newborn: SoulId, b': Bundle)
    requires forall j :: 0 <= j < |b.memories| ==> CompleteMemory(b.memories[j], all)
    requires KeptMemories(t'.memories, newborn, all) == [] + MemoriesBrought(b.memories, recompute, embed, all, 0)
    requires multiset(b'.memories) == multiset(MemoriesOf(t'.memories, newborn, all))
    ensures multiset(Map(KeptMemory, b'.memories)) == multiset(Map(Carry(recompute, embed), b.memories))
  {
    CompleteMemoriesKept(b.memories, recompute, embed, all, 0);
    assert b.memories[0..] == b.memories;
    MapPermutes(KeptMemory, b'.memories, MemoriesOf(t'.memories, newborn, all));
  }

  // -- each table of the newborn soul, on its own --

  lemma FactsComeBack(b: Bundle, t: Tables, soul: SoulId, all: bool, target: Tables, sv: Memories.Services, q: Request,
                      b': Bundle)
    requires FactsExport(b.facts, FactsOf(t.facts, soul, all)) && Facts.RowsOk(target.keys, sv.master, target.facts)
    requires AsNewSoul(q, b, target) && Imported(target, sv, q).Ok?
    requires FactsExport(b'.facts, FactsOf(Imported(target, sv, q).value.tables.facts, q.target.id, all))
    ensures b'.facts == b.facts
  {
    var o := NewSoulOpens(target, sv, q, b);
    NoFactsYet(target, sv.master, o.soul);
    ImportedFacts(target, sv, q);
    FactsRoundTrip(b, t, soul, all, Imported(target, sv, q).value.tables, o.soul, b', q.mode);
  }

  lemma PropertiesComeBack(b: Bundle, t: Tables, master: Key, soul: SoulId, target: Tables, sv: Memories.Services,
                           q: Request, b': Bundle)
    requires Properties.PropertiesOk(t.keys, master, t.properties)
    requires PropertiesExport(b.properties, PropertiesOf(t.properties, soul))
    requires Healthy(target, sv.master) && AsNewSoul(q, b, target) && Imported(target, sv, q).Ok?
    requires PropertiesExport(b'.properties, PropertiesOf(Imported(target, sv, q).value.tables.properties, q.target.id))
    ensures b'.properties == b.properties
  {
    var o := NewSoulOpens(target, sv, q, b);
    NoPropertiesYet(target, sv.master, o.soul);
    ImportedProperties(target, sv, q);
    ImportKeepsHealthy(target, sv, q);
    PropertiesRoundTrip(b, t, master, soul, Imported(target, sv, q).value.tables, sv.master, o.soul, b', q.mode);
  }

  lemma AdaptationsComeBack(b: Bundle, all: bool, target: Tables, sv: Memories.Services, q: Request, b': Bundle)
    requires forall j :: 0 <= j < |b.adaptations| ==> CompleteAdaptation(b.adaptations[j], all)
    requires Adaptations.RowsOk(target.keys, sv.master, target.adaptations)
    requires AsNewSoul(q, b, target) && Imported(target, sv, q).Ok?
    requires multiset(b'.adaptations)
          == multiset(AdaptationsOf(Imported(target, sv, q).value.tables.adaptations, q.target.id, all))
    ensures multiset(Map(KeptAdaptation, b'.adaptations)) == multiset(Map(KeptAdaptation, b.adaptations))
  {
    var o := NewSoulOpens(target, sv, q, b);
    NoAdaptationsYet(target, sv.master, o.soul, all);
    ImportedAdaptations(target, sv, q, all);
    AdaptationsRoundTrip(b, all, Imported(target, sv, q).value.tables, o.soul, b');
  }

  lemma MemoriesComeBack(b: Bundle, all: bool, target: Tables, sv: Memories.Services, q: Request, b': Bundle)
    requires forall j :: 0 <= j < |b.memories| ==> CompleteMemory(b.memories[j], all)
    requires Memories.RowsOk(target.keys, sv.master, target.memories)
    requires AsNewSoul(q, b, target) && Imported(target, sv, q).Ok?
    requires multiset(b'.memories)
          == multiset(MemoriesOf(Imported(target, sv, q).value.tables.memories, q.target.id, all))
    ensures multiset(Map(KeptMemory, b'.memories)) == multiset(Map(Carry(q.recompute, sv.embed), b.memories))
  {
    var o := NewSoulOpens(target, sv, q, b);
    NoMemoriesYet(target, sv.master, o.soul, all);
    ImportedMemories(target, sv, q, all);
    MemoriesRoundTrip(b, all, q.recompute, sv.embed, Imported(target, sv, q).value.tables, o.soul, b');
  }

  lemma CoreComesBack(b: Bundle, t: Tables, soul: SoulId, target: Tables, sv: Memories.Services, q: Request, b': Bundle)
    requires SelfCore.SoulInv(t.ledger, soul) && CoreExport(b.core, t.ledger, soul)
    requires CoresOk(target.keys, sv.master, target.ledger) && AsNewSoul(q, b, target) && Imported(target, sv, q).Ok?
    requires CoreExport(b'.core, Imported(target, sv, q).value.tables.ledger, q.target.id)
    ensures b'.core == b.core <==> CoreImports(t.ledger, soul)
  {
    var o := Parts(target, sv, q);
    NoCoreYet(target, sv.master, q.target.id);
    CoreRoundTrip(b.core, t.ledger, soul, target.ledger, o.soul, q.user, o.dek, q.draws.core, q.draws.history);
  }

  /**
    The rows of two exports agree: facts and properties exactly; adaptations and memories as multisets,
    but for their times and recall counts (and vectors, if they are computed again).
   */
  ghost predicate SameRows(b: Bundle, b': Bundle, recompute: bool, embed: string -> seq<real>) {
    && b'.facts == b.facts && b'.properties == b.properties
    && multiset(Map(KeptAdaptation, b'.adaptations)) == multiset(Map(KeptAdaptation, b.adaptations))
    && multiset(Map(KeptMemory, b'.memories)) == multiset(Map(Carry(recompute, embed), b.memories))
  }

  /** There is no Self Core, or it is not empty. */
  predicate CoreImports(l: Ledger, soul: SoulId) {
    soul !in l.cores || TextOf(l.cores[soul].content) != ""
  }

  /**
    Any export of any healthy soul imports as a new soul, and every export of that soul has the rows of
    the first; the Self Core, version and archive included, comes back if and only if there was none or
    its content is not empty.
   */
  lemma SecondExportEqualsFirst(b: Bundle, t: Tables, master: Key, soul: SoulId, all: bool,
                                target: Tables, sv: Memories.Services, q: Request, b': Bundle)
    requires Healthy(t, master) && IsExport(b, t, soul, all)
    requires Healthy(target, sv.master) && AsNewSoul(q, b, target) && EmbedsRight(sv.embed)
    ensures Imported(target, sv, q).Ok?
    ensures IsExport(b', Imported(target, sv, q).value.tables, q.target.id, all) ==>
      SameRows(b, b', q.recompute, sv.embed) && (b'.core == b.core <==> CoreImports(t.ledger, soul))
  {
    ExportImports(b, t, master, soul, all, target, sv, q);
    if IsExport(b', Imported(target, sv, q).value.tables, q.target.id, all) {
      FactsComeBack(b, t, soul, all, target, sv, q, b');
      PropertiesComeBack(b, t, master, soul, target, sv, q, b');
      ExportIsComplete(b, t, master, soul, all);
      AdaptationsComeBack(b, all, target, sv, q, b');
      MemoriesComeBack(b, all, target, sv, q, b');
      CoreComesBack(b, t, soul, target, sv, q, b');
    }
  }
}
