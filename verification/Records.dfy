/**
  Field by field, what a record of an export shows and what a row that an import stores holds: every row
  that was asked for has one record, and every adaptation and memory of a bundle one row.
 */
module Records {
  import opened Prelude
  import opened Crypto
  import opened Store
  import opened KeyCache
  import opened Ordering
  import opened Export
  import opened Import
  import opened Portability
  import Merge
  import SelfCore
  import Facts
  import Properties
  import Adaptations
  import Memories

  // ---- what an export shows ----

  ghost predicate VersionShows(v: SelfCore.BundleVersion, version: int, row: HistoryRow) {
    v.version == version && row.content.plain == Text(v.content) && v.note == row.note
  }

  ghost predicate FactShows(f: FactRecord, name: Facts.FactName, row: FactRow) {
    f.name == name && row.value.plain == Text(f.value) && f.confidence == Some(row.confidence) && f.status == Some(row.status)
  }

  /** A sensitive property in the clear. */
  ghost predicate PropertyShows(p: PropertyRecord, ptype: string, row: PropertyRow) {
    && p.ptype == ptype && p.version == row.version && p.sensitive == row.sensitive && p.status == row.status && p.value.Some?
    && if row.sensitive then row.secret.Some? && row.secret.value.plain == Doc(p.value.value) else p.value.value == row.value
  }

  ghost predicate AdaptationShows(a: AdaptationRecord, row: AdaptationRow) {
    && a.category == row.category && row.content.plain == Text(a.content) && a.confidence == Some(row.confidence)
    && a.source == row.source && a.status == Some(row.status) && a.createdAt == Some(row.createdAt)
  }

  ghost predicate MemoryShows(m: MemoryRecord, row: MemoryRow) {
    && row.content.plain == Text(m.content) && m.salience == Some(row.salience) && m.status == Some(row.status)
    && m.tags == row.tags && m.flags == row.flags && m.client == row.client && m.embedding == row.embedding
    && m.createdAt == Some(row.createdAt) && m.lastRecalledAt == row.lastRecalledAt && m.recallCount == row.recallCount
  }

  lemma HistoryAscends(s: seq<SelfCore.BundleVersion>, history: map<VersionKey, HistoryRow>, soul: SoulId)
    requires HistoryExport(s, history, soul)
    ensures forall i, j :: 0 <= i < j < |s| ==> s[i].version < s[j].version
    ensures forall k :: k in history && k.soul == soul ==> exists i :: 0 <= i < |s| && s[i].version == k.version
  {
    var versions := Map(VersionNumber, s);
    forall i, j | 0 <= i < j < |s| ensures s[i].version < s[j].version { assert IntLess(versions[i], versions[j]); }
    forall k | k in history && k.soul == soul ensures exists i :: 0 <= i < |s| && s[i].version == k.version {
      assert k.version in Versions(history, soul) && k.version in versions;
      var i :| 0 <= i < |versions| && versions[i] == k.version;
      assert s[i].version == k.version;
    }
  }

  /** The Self Core as it is, and every archived version in ascending order. */
  lemma ExportShowsCore(b: Bundle, t: Tables, master: Key, soul: SoulId, all: bool)
    requires Healthy(t, master) && IsExport(b, t, soul, all)
    ensures var c, l := b.core, t.ledger;
      && (if soul in l.cores then
            c.version == Some(l.cores[soul].version) && c.content.Some? && l.cores[soul].content.plain == Text(c.content.value)
          else c.version == Some(0) && c.content == None)
      && (forall i, j :: 0 <= i < j < |c.history| ==> c.history[i].version < c.history[j].version)
      && (forall i :: 0 <= i < |c.history| ==>
            var k := VersionKey(soul, c.history[i].version); k in l.history && VersionShows(c.history[i], k.version, l.history[k]))
      && (forall k :: k in l.history && k.soul == soul ==> exists i :: 0 <= i < |c.history| && c.history[i].version == k.version)
  {
    HistoryAscends(b.core.history, t.ledger.history, soul);
  }

  lemma FactShown(t: Tables, master: Key, soul: SoulId, all: bool, f: FactRecord)
    requires Healthy(t, master) && f.name in FactsOf(t.facts, soul, all)
    requires f == FactRecordOf(f.name, FactsOf(t.facts, soul, all)[f.name])
    ensures var k := FactKey(soul, f.name.category, f.name.key);
            k in t.facts && (all || t.facts[k].status == Active) && FactShows(f, f.name, t.facts[k])
  {
    FactsOfAt(t.facts, soul, all, f.name);
  }

  lemma FactListed(s: seq<FactRecord>, facts: FactTable, soul: SoulId, all: bool, k: FactKey)
    requires FactsExport(s, FactsOf(facts, soul, all)) && k in facts && k.soul == soul && (all || facts[k].status == Active)
    ensures exists i :: 0 <= i < |s| && s[i].name == Facts.FactName(k.category, k.key)
  {
    var n, names := Facts.FactName(k.category, k.key), Map(RecordName, s);
    FactsOfAt(facts, soul, all, n);
    assert k == FactKey(soul, n.category, n.key) && n in names;
    var i :| 0 <= i < |names| && names[i] == n;
    assert s[i].name == n;
  }

  lemma FactsAscend(s: seq<FactRecord>, known: map<Facts.FactName, PlainFact>)
    requires FactsExport(s, known)
    ensures forall i, j :: 0 <= i < j < |s| ==> Facts.NameLess(s[i].name, s[j].name)
  {
    var names := Map(RecordName, s);
    forall i, j | 0 <= i < j < |s| ensures Facts.NameLess(s[i].name, s[j].name) { assert Facts.NameLess(names[i], names[j]); }
  }

  /** Every fact of the soul that was asked for, once, by category and key. */
  lemma ExportShowsFacts(b: Bundle, t: Tables, master: Key, soul: SoulId, all: bool)
    requires Healthy(t, master) && IsExport(b, t, soul, all)
    ensures forall i, j :: 0 <= i < j < |b.facts| ==> Facts.NameLess(b.facts[i].name, b.facts[j].name)
    ensures forall i :: 0 <= i < |b.facts| ==>
      var name := b.facts[i].name;
      var k := FactKey(soul, name.category, name.key);
      k in t.facts && (all || t.facts[k].status == Active) && FactShows(b.facts[i], name, t.facts[k])
    ensures forall k :: k in t.facts && k.soul == soul && (all || t.facts[k].status == Active) ==>
      exists i :: 0 <= i < |b.facts| && b.facts[i].name == Facts.FactName(k.category, k.key)
  {
    var s := b.facts;
    FactsAscend(s, FactsOf(t.facts, soul, all));
    forall i | 0 <= i < |s|
      ensures var k := FactKey(soul, s[i].name.category, s[i].name.key);
              k in t.facts && (all || t.facts[k].status == Active) && FactShows(s[i], s[i].name, t.facts[k])
    {
      FactShown(t, master, soul, all, s[i]);
    }
    forall k | k in t.facts && k.soul == soul && (all || t.facts[k].status == Active)
      ensures exists i :: 0 <= i < |s| && s[i].name == Facts.FactName(k.category, k.key)
    {
      FactListed(s, t.facts, soul, all, k);
    }
  }

  lemma PropertyShown(t: Tables, master: Key, soul: SoulId, p: PropertyRecord)
    requires Healthy(t, master) && p.ptype in PropertiesOf(t.properties, soul) && p == PropertiesOf(t.properties, soul)[p.ptype]
    ensures var k := PropertyKey(soul, p.ptype);
            k in t.properties && t.properties[k].status == Active && PropertyShows(p, k.ptype, t.properties[k])
  {
    PropertiesOfAt(t.properties, soul, p.ptype);
  }

  lemma PropertyListed(s: seq<PropertyRecord>, props: PropertyTable, soul: SoulId, k: PropertyKey)
    requires PropertiesExport(s, PropertiesOf(props, soul)) && k in props && k.soul == soul && props[k].status == Active
    ensures exists i :: 0 <= i < |s| && s[i].ptype == k.ptype
  {
    var types := Map(RecordType, s);
    PropertiesOfAt(props, soul, k.ptype);
    assert k == PropertyKey(soul, k.ptype) && k.ptype in types;
    var i :| 0 <= i < |types| && types[i] == k.ptype;
    assert s[i].ptype == k.ptype;
  }

  lemma PropertiesAscend(s: seq<PropertyRecord>, live: map<string, PropertyRecord>)
    requires PropertiesExport(s, live)
    ensures forall i, j :: 0 <= i < j < |s| ==> StringLess(s[i].ptype, s[j].ptype)
  {
    var types := Map(RecordType, s);
    forall i, j | 0 <= i < j < |s| ensures StringLess(s[i].ptype, s[j].ptype) { assert StringLess(types[i], types[j]); }
  }

  /** Every active property of the soul, once, by type. */
  lemma ExportShowsProperties(b: Bundle, t: Tables, master: Key, soul: SoulId, all: bool)
    requires Healthy(t, master) && IsExport(b, t, soul, all)
    ensures forall i, j :: 0 <= i < j < |b.properties| ==> StringLess(b.properties[i].ptype, b.properties[j].ptype)
    ensures forall i :: 0 <= i < |b.properties| ==>
      var k := PropertyKey(soul, b.properties[i].ptype);
      k in t.properties && t.properties[k].status == Active && PropertyShows(b.properties[i], k.ptype, t.properties[k])
    ensures forall k :: k in t.properties && k.soul == soul && t.properties[k].status == Active ==>
      exists i :: 0 <= i < |b.properties| && b.properties[i].ptype == k.ptype
  {
    var s := b.properties;
    PropertiesAscend(s, PropertiesOf(t.properties, soul));
    forall i | 0 <= i < |s|
      ensures var k := PropertyKey(soul, s[i].ptype);
        k in t.properties && t.properties[k].status == Active && PropertyShows(s[i], k.ptype, t.properties[k])
    {
      PropertyShown(t, master, soul, s[i]);
    }
    forall k | k in t.properties && k.soul == soul && t.properties[k].status == Active
      ensures exists i :: 0 <= i < |s| && s[i].ptype == k.ptype
    {
      PropertyListed(s, t.properties, soul, k);
    }
  }

  // -- rows and records one to one --

  /** Each place once. */
  ghost predicate Distinct(at: seq<nat>) { forall i, j :: 0 <= i < j < |at| ==> at[i] != at[j] }

  function Without<R>(s: seq<R>, k: nat): seq<R>
    requires k < |s|
  {
    s[..k] + s[k + 1..]
  }

  lemma LastDropped<R>(s: seq<R>)
    requires s != []
    ensures multiset(s) == multiset(s[..|s| - 1]) + multiset{s[|s| - 1]}
  {
    assert s == s[..|s| - 1] + [s[|s| - 1]];
  }

  lemma Cancel<R>(a: multiset<R>, b: multiset<R>, x: R)
    requires a + multiset{x} == b + multiset{x}
    ensures a == b
  {
    assert a == a + multiset{x} - multiset{x};
    assert b == b + multiset{x} - multiset{x};
  }

  lemma DroppedBoth<R>(s: seq<R>, rows: seq<R>, k: nat)
    requires s != [] && k < |rows| && rows[k] == s[|s| - 1] && multiset(s) == multiset(rows)
    ensures multiset(s[..|s| - 1]) == multiset(Without(rows, k))
  {
    var rest, x := Without(rows, k), rows[k];
    LastDropped(s);
    Export.InsertedHolds(rest, k, x);
    assert rest[..k] + [x] + rest[k..] == rows;
    Cancel(multiset(s[..|s| - 1]), multiset(rest), x);
  }

  /** A rearrangement says where each element came from. */
  lemma {:induction false} Rearranged<R>(s: seq<R>, rows: seq<R>) returns (p: seq<nat>)
    requires multiset(s) == multiset(rows)
    ensures |p| == |s| == |rows| && Distinct(p) && forall i :: 0 <= i < |p| ==> p[i] < |rows| && s[i] == rows[p[i]]
  {
    assert |s| == |multiset(s)| == |multiset(rows)| == |rows|;
    if s == [] {
      p := [];
    } else {
      var n := |s| - 1;
      assert s[n] in multiset(s);
      var k :| 0 <= k < |rows| && rows[k] == s[n];
      DroppedBoth(s, rows, k);
      var before := Rearranged(s[..n], Without(rows, k));
      p := seq(n, i requires 0 <= i < n => if before[i] < k then before[i] else before[i] + 1) + [k];
    }
  }

  /** The records of the wanted rows, in their order, and where those rows are. */
  lemma {:induction false} MemoriesAt(t: MemoryTable, soul: SoulId, all: bool) returns (at: seq<nat>)
    ensures |at| == |MemoriesOf(t, soul, all)| && Distinct(at)
    ensures forall i :: 0 <= i < |at| ==>
      at[i] < |t| && MemoryWanted(t[at[i]], soul, all) && MemoriesOf(t, soul, all)[i] == MemoryRecordOf(t[at[i]])
    ensures forall p :: 0 <= p < |t| && MemoryWanted(t[p], soul, all) ==> p in at
  {
    if t == [] {
      at := [];
    } else {
      var n := |t| - 1;
      var before := MemoriesAt(t[..n], soul, all);
      at := before + if MemoryWanted(t[n], soul, all) then [n] else [];
      forall p | 0 <= p < |t| && MemoryWanted(t[p], soul, all) ensures p in at {
        if p < n { assert t[..n][p] == t[p] && p in before; } else { assert at[|before|] == p; }
      }
    }
  }

  lemma {:induction false} AdaptationsAt(t: AdaptationTable, soul: SoulId, all: bool) returns (at: seq<nat>)
    ensures |at| == |AdaptationsOf(t, soul, all)| && Distinct(at)
    ensures forall i :: 0 <= i < |at| ==>
      at[i] < |t| && AdaptationWanted(t[at[i]], soul, all) && AdaptationsOf(t, soul, all)[i] == AdaptationRecordOf(t[at[i]])
    ensures forall p :: 0 <= p < |t| && AdaptationWanted(t[p], soul, all) ==> p in at
  {
    if t == [] {
      at := [];
    } else {
      var n := |t| - 1;
      var before := AdaptationsAt(t[..n], soul, all);
      at := before + if AdaptationWanted(t[n], soul, all) then [n] else [];
      forall p | 0 <= p < |t| && AdaptationWanted(t[p], soul, all) ensures p in at {
        if p < n { assert t[..n][p] == t[p] && p in before; } else { assert at[|before|] == p; }
      }
    }
  }

  /** Distinct places below `n`, `n` of them, are all of them. */
  lemma AllPlaces(p: seq<nat>, x: nat) returns (i: nat)
    requires Distinct(p) && (forall i :: 0 <= i < |p| ==> p[i] < |p|) && x < |p|
    ensures i < |p| && p[i] == x
  {
    var each := seq(|p|, i requires 0 <= i < |p| => i);
    var taken, places := set i | 0 <= i < |p| :: p[i], set i | 0 <= i < |each| :: each[i];
    DistinctSize(p, taken);
    DistinctSize(each, places);
    forall k | k in taken ensures k in places { assert each[k] == k; }
    SubsetOfSize(taken, places);
    assert each[x] in places && x in taken;
    i :| 0 <= i < |p| && p[i] == x;
  }

  /** The places of the rows, in the order of the rearrangement. */
  lemma Placed(rows: seq<nat>, p: seq<nat>) returns (at: seq<nat>)
    requires |p| == |rows| && Distinct(p) && Distinct(rows) && forall i :: 0 <= i < |p| ==> p[i] < |rows|
    ensures |at| == |p| && Distinct(at) && forall i :: 0 <= i < |at| ==> at[i] == rows[p[i]]
    ensures forall x :: x in at <==> x in rows
  {
    at := seq(|p|, i requires 0 <= i < |p| => rows[p[i]]);
    forall i, j | 0 <= i < j < |at| ensures at[i] != at[j] { assert p[i] != p[j]; }
    forall x | x in rows ensures x in at {
      var k :| 0 <= k < |rows| && rows[k] == x;
      var i := AllPlaces(p, k);
      assert at[i] == x;
    }
  }

  /** The rearranged records, and where their rows are. */
  lemma MemoriesMatched(s: seq<MemoryRecord>, t: MemoryTable, soul: SoulId, all: bool) returns (at: seq<nat>)
    requires InTimeOrder(s, MemoriesOf(t, soul, all), MemoryTime)
    ensures |at| == |s| && Distinct(at) && forall i :: 0 <= i < |at| ==> at[i] < |t| && s[i] == MemoryRecordOf(t[at[i]])
    ensures forall p :: 0 <= p < |t| ==> (p in at <==> MemoryWanted(t[p], soul, all))
  {
    var rows := MemoriesAt(t, soul, all);
    var p := Rearranged(s, MemoriesOf(t, soul, all));
    at := Placed(rows, p);
    forall x | 0 <= x < |t| && x in at ensures MemoryWanted(t[x], soul, all) { assert x in rows; }
  }

  lemma MemoriesAscend(s: seq<MemoryRecord>, t: MemoryTable, rows: seq<MemoryRecord>, at: seq<nat>)
    requires InTimeOrder(s, rows, MemoryTime) && |at| == |s|
    requires forall i :: 0 <= i < |at| ==> at[i] < |t| && s[i] == MemoryRecordOf(t[at[i]])
    ensures forall i, j :: 0 <= i < j < |at| ==> t[at[i]].createdAt <= t[at[j]].createdAt
  {
    forall i, j | 0 <= i < j < |at| ensures t[at[i]].createdAt <= t[at[j]].createdAt {
      assert MemoryTime(s[i]) <= MemoryTime(s[j]);
    }
  }

  /** Every memory of the soul that was asked for, once, by time: record `i` shows row `at[i]`. */
  lemma ExportShowsMemories(b: Bundle, t: Tables, master: Key, soul: SoulId, all: bool) returns (at: seq<nat>)
    requires Healthy(t, master) && IsExport(b, t, soul, all)
    ensures |at| == |b.memories| && Distinct(at)
    ensures forall i :: 0 <= i < |at| ==>
      at[i] < |t.memories| && t.memories[at[i]].soul == soul && MemoryShows(b.memories[i], t.memories[at[i]])
    ensures forall p :: 0 <= p < |t.memories| ==>
      (p in at <==> t.memories[p].soul == soul && (all || t.memories[p].status.Confirmed? || t.memories[p].status.Pending?))
    ensures forall i, j :: 0 <= i < j < |at| ==> t.memories[at[i]].createdAt <= t.memories[at[j]].createdAt
  {
    at := MemoriesMatched(b.memories, t.memories, soul, all);
    MemoriesAscend(b.memories, t.memories, MemoriesOf(t.memories, soul, all), at);
    MemoriesShow(t, master, b.memories, at);
    MemoriesAreTheirs(t.memories, soul, all, at);
  }

  lemma MemoriesAreTheirs(t: MemoryTable, soul: SoulId, all: bool, at: seq<nat>)
    requires (forall i :: 0 <= i < |at| ==> at[i] < |t|) && forall p :: 0 <= p < |t| && p in at ==> MemoryWanted(t[p], soul, all)
    ensures forall i :: 0 <= i < |at| ==> t[at[i]].soul == soul
  {
    forall i | 0 <= i < |at| ensures t[at[i]].soul == soul { assert at[i] in at; }
  }

  lemma MemoriesShow(t: Tables, master: Key, s: seq<MemoryRecord>, at: seq<nat>)
    requires Healthy(t, master) && |s| == |at|
    requires forall i :: 0 <= i < |at| ==> at[i] < |t.memories| && s[i] == MemoryRecordOf(t.memories[at[i]])
    ensures forall i :: 0 <= i < |at| ==> MemoryShows(s[i], t.memories[at[i]])
  {
    forall i | 0 <= i < |at| ensures MemoryShows(s[i], t.memories[at[i]]) { MemoryRecordShows(t, master, at[i]); }
  }

  lemma MemoryRecordShows(t: Tables, master: Key, p: nat)
    requires Healthy(t, master) && p < |t.memories|
    ensures MemoryShows(MemoryRecordOf(t.memories[p]), t.memories[p])
  {
    assert Memories.RowOk(t.memories[p], TableDek(t.keys, master, t.memories[p].soul));
  }

  /** The rearranged records, and where their rows are. */
  lemma AdaptationsMatched(s: seq<AdaptationRecord>, t: AdaptationTable, soul: SoulId, all: bool) returns (at: seq<nat>)
    requires InTimeOrder(s, AdaptationsOf(t, soul, all), AdaptationTime)
    ensures |at| == |s| && Distinct(at) && forall i :: 0 <= i < |at| ==> at[i] < |t| && s[i] == AdaptationRecordOf(t[at[i]])
    ensures forall p :: 0 <= p < |t| ==> (p in at <==> AdaptationWanted(t[p], soul, all))
  {
    var rows := AdaptationsAt(t, soul, all);
    var p := Rearranged(s, AdaptationsOf(t, soul, all));
    at := Placed(rows, p);
    forall x | 0 <= x < |t| && x in at ensures AdaptationWanted(t[x], soul, all) { assert x in rows; }
  }

  lemma AdaptationsAscend(s: seq<AdaptationRecord>, t: AdaptationTable, rows: seq<AdaptationRecord>, at: seq<nat>)
    requires InTimeOrder(s, rows, AdaptationTime) && |at| == |s|
    requires forall i :: 0 <= i < |at| ==> at[i] < |t| && s[i] == AdaptationRecordOf(t[at[i]])
    ensures forall i, j :: 0 <= i < j < |at| ==> t[at[i]].createdAt <= t[at[j]].createdAt
  {
    forall i, j | 0 <= i < j < |at| ensures t[at[i]].createdAt <= t[at[j]].createdAt {
      assert AdaptationTime(s[i]) <= AdaptationTime(s[j]);
    }
  }

  /** Every adaptation of the soul that was asked for, once, by time: record `i` shows row `at[i]`. */
  lemma ExportShowsAdaptations(b: Bundle, t: Tables, master: Key, soul: SoulId, all: bool) returns (at: seq<nat>)
    requires Healthy(t, master) && IsExport(b, t, soul, all)
    ensures |at| == |b.adaptations| && Distinct(at)
    ensures forall i :: 0 <= i < |at| ==>
      at[i] < |t.adaptations| && t.adaptations[at[i]].soul == soul && AdaptationShows(b.adaptations[i], t.adaptations[at[i]])
    ensures forall p :: 0 <= p < |t.adaptations| ==>
      (p in at <==> t.adaptations[p].soul == soul && (all || t.adaptations[p].status == Current))
    ensures forall i, j :: 0 <= i < j < |at| ==> t.adaptations[at[i]].createdAt <= t.adaptations[at[j]].createdAt
  {
    at := AdaptationsMatched(b.adaptations, t.adaptations, soul, all);
    AdaptationsAscend(b.adaptations, t.adaptations, AdaptationsOf(t.adaptations, soul, all), at);
    AdaptationsShow(t, master, b.adaptations, at);
    AdaptationsAreTheirs(t.adaptations, soul, all, at);
  }

  lemma AdaptationsAreTheirs(t: AdaptationTable, soul: SoulId, all: bool, at: seq<nat>)
    requires (forall i :: 0 <= i < |at| ==> at[i] < |t|) && forall p :: 0 <= p < |t| && p in at ==> AdaptationWanted(t[p], soul, all)
    ensures forall i :: 0 <= i < |at| ==> t[at[i]].soul == soul
  {
    forall i | 0 <= i < |at| ensures t[at[i]].soul == soul { assert at[i] in at; }
  }

  lemma AdaptationsShow(t: Tables, master: Key, s: seq<AdaptationRecord>, at: seq<nat>)
    requires Healthy(t, master) && |s| == |at|
    requires forall i :: 0 <= i < |at| ==> at[i] < |t.adaptations| && s[i] == AdaptationRecordOf(t.adaptations[at[i]])
    ensures forall i :: 0 <= i < |at| ==> AdaptationShows(s[i], t.adaptations[at[i]])
  {
    forall i | 0 <= i < |at| ensures AdaptationShows(s[i], t.adaptations[at[i]]) { AdaptationRecordShows(t, master, at[i]); }
  }

  lemma AdaptationRecordShows(t: Tables, master: Key, p: nat)
    requires Healthy(t, master) && p < |t.adaptations|
    ensures AdaptationShows(AdaptationRecordOf(t.adaptations[p]), t.adaptations[p])
  {
    assert Adaptations.RowOk(t.adaptations[p], TableDek(t.keys, master, t.adaptations[p].soul));
  }

  // ---- what an import stores ----

  /** The record's fields, with the defaults of the missing ones. */
  ghost predicate AdaptationStored(row: AdaptationRow, a: AdaptationRecord, soul: SoulId, id: nat, now: Time) {
    && row.id == id && row.soul == soul && row.category == a.category && row.content.plain == Text(a.content)
    && row.confidence == (if a.confidence.Some? then a.confidence.value else 0.5) && row.source == a.source
    && row.createdAt == now && row.supersededBy == None && row.status == (if a.status.Some? then a.status.value else Current)
  }

  /** The vector is computed if asked for, or if the record has none of the right size. */
  ghost predicate MemoryStored(row: MemoryRow, m: MemoryRecord, soul: SoulId, id: nat, recompute: bool,
                               embed: string -> seq<real>, now: Time) {
    && row.id == id && row.soul == soul && row.content.plain == Text(m.content)
    && row.salience == (if m.salience.Some? then m.salience.value else 0.5)
    && row.status == (if m.status.Some? then m.status.value else Confirmed)
    && row.tags == m.tags && row.flags == m.flags && row.client == m.client
    && row.embedding == (if !recompute && |m.embedding| == 1024 then m.embedding else embed(m.content))
    && row.createdAt == now && row.lastRecalledAt == None && row.recallCount == 0
  }

  lemma AdaptationIsStored(keys: KeyTable, master: Key, t: AdaptationTable, soul: SoulId, a: AdaptationRecord, d: Draw, now: Time)
    returns (row: AdaptationRow)
    requires Adaptations.Apply(keys, master, t, AdaptationOp(a, soul, d, now)).1.Pass?
    ensures Adaptations.Apply(keys, master, t, AdaptationOp(a, soul, d, now)).0 == t + [row]
    ensures AdaptationStored(row, a, soul, d.id, now)
  {
    row := Adaptations.NewRow(keys, master, t, AdaptationOp(a, soul, d, now)).value;
  }

  lemma {:induction false} AdaptationsAreStored(keys: KeyTable, master: Key, t: AdaptationTable, soul: SoulId,
                                                s: seq<AdaptationRecord>, draw: nat -> Draw, now: Time, i: nat)
    returns (rows: seq<AdaptationRow>)
    requires i <= |s| && AdaptationsFrom(keys, master, t, soul, s, draw, now, i).Ok?
    ensures AdaptationsFrom(keys, master, t, soul, s, draw, now, i).value == t + rows && |rows| == |s| - i
    ensures forall j :: 0 <= j < |rows| ==> AdaptationStored(rows[j], s[i + j], soul, draw(i + j).id, now)
    decreases |s| - i
  {
    if i == |s| {
      rows := [];
    } else {
      var row := AdaptationIsStored(keys, master, t, soul, s[i], draw(i), now);
      var rest := AdaptationsAreStored(keys, master, t + [row], soul, s, draw, now, i + 1);
      rows := [row] + rest;
      Shift(t, [row], rest);
      forall j | 0 < j < |rows| ensures AdaptationStored(rows[j], s[i + j], soul, draw(i + j).id, now) {
        assert rows[j] == rest[j - 1] && i + 1 + (j - 1) == i + j;
      }
    }
  }

  lemma MemoryIsStored(keys: KeyTable, sv: Memories.Services, t: MemoryTable, soul: SoulId, m: MemoryRecord, recompute: bool,
                       d: Draw, now: Time) returns (row: MemoryRow)
    requires Memories.Apply(keys, sv, t, MemoryOp(m, soul, recompute, sv.embed, d, now)).1.Pass?
    ensures Memories.Apply(keys, sv, t, MemoryOp(m, soul, recompute, sv.embed, d, now)).0 == t + [row]
    ensures MemoryStored(row, m, soul, d.id, recompute, sv.embed, now)
  {
    row := Memories.Imported(keys, sv, MemoryOp(m, soul, recompute, sv.embed, d, now)).value;
  }

  lemma {:induction false} MemoriesAreStored(keys: KeyTable, sv: Memories.Services, t: MemoryTable, soul: SoulId,
                                             s: seq<MemoryRecord>, recompute: bool, draw: nat -> Draw, now: Time, i: nat)
    returns (rows: seq<MemoryRow>)
    requires i <= |s| && MemoriesFrom(keys, sv, t, soul, s, recompute, draw, now, i).Ok?
    ensures MemoriesFrom(keys, sv, t, soul, s, recompute, draw, now, i).value == t + rows && |rows| == |s| - i
    ensures forall j :: 0 <= j < |rows| ==> MemoryStored(rows[j], s[i + j], soul, draw(i + j).id, recompute, sv.embed, now)
    decreases |s| - i
  {
    if i == |s| {
      rows := [];
    } else {
      var row := MemoryIsStored(keys, sv, t, soul, s[i], recompute, draw(i), now);
      var rest := MemoriesAreStored(keys, sv, t + [row], soul, s, recompute, draw, now, i + 1);
      rows := [row] + rest;
      Shift(t, [row], rest);
      forall j | 0 < j < |rows| ensures MemoryStored(rows[j], s[i + j], soul, draw(i + j).id, recompute, sv.embed, now) {
        assert rows[j] == rest[j - 1] && i + 1 + (j - 1) == i + j;
      }
    }
  }

  lemma AllAdaptationsStored(keys: KeyTable, master: Key, t: AdaptationTable, t': AdaptationTable, soul: SoulId,
                             s: seq<AdaptationRecord>, draw: nat -> Draw, now: Time) returns (rows: seq<AdaptationRow>)
    requires AdaptationsFrom(keys, master, t, soul, s, draw, now, 0) == Ok(t')
    ensures t' == t + rows && |rows| == |s|
    ensures forall i :: 0 <= i < |rows| ==> AdaptationStored(rows[i], s[i], soul, draw(i).id, now)
  {
    rows := AdaptationsAreStored(keys, master, t, soul, s, draw, now, 0);
    forall i | 0 <= i < |rows| ensures AdaptationStored(rows[i], s[i], soul, draw(i).id, now) {
      assert 0 + i == i;
    }
  }

  lemma AllMemoriesStored(keys: KeyTable, sv: Memories.Services, t: MemoryTable, t': MemoryTable, soul: SoulId,
                          s: seq<MemoryRecord>, recompute: bool, draw: nat -> Draw, now: Time) returns (rows: seq<MemoryRow>)
    requires MemoriesFrom(keys, sv, t, soul, s, recompute, draw, now, 0) == Ok(t')
    ensures t' == t + rows && |rows| == |s|
    ensures forall i :: 0 <= i < |rows| ==> MemoryStored(rows[i], s[i], soul, draw(i).id, recompute, sv.embed, now)
  {
    rows := MemoriesAreStored(keys, sv, t, soul, s, recompute, draw, now, 0);
    forall i | 0 <= i < |rows| ensures MemoryStored(rows[i], s[i], soul, draw(i).id, recompute, sv.embed, now) {
      assert 0 + i == i;
    }
  }

  lemma AdaptationsPart(t: Tables, sv: Memories.Services, q: Request) returns (keys: KeyTable, soul: SoulId, t': AdaptationTable)
    requires Imported(t, sv, q).Ok?
    ensures soul == TargetOf(t, sv, q)
    ensures AdaptationsFrom(keys, sv.master, t.adaptations, soul, q.bundle.adaptations, q.draws.adaptations, q.now, 0)
         == Ok(t')
    ensures t' == Imported(t, sv, q).value.tables.adaptations
  {
    var o := Parts(t, sv, q);
    keys, soul, t' := o.keys, o.soul, Imported(t, sv, q).value.tables.adaptations;
  }

  lemma MemoriesPart(t: Tables, sv: Memories.Services, q: Request) returns (keys: KeyTable, soul: SoulId, t': MemoryTable)
    requires Imported(t, sv, q).Ok?
    ensures soul == TargetOf(t, sv, q)
    ensures MemoriesFrom(keys, sv, t.memories, soul, q.bundle.memories, q.recompute, q.draws.memories, q.now, 0)
         == Ok(t')
    ensures t' == Imported(t, sv, q).value.tables.memories
  {
    var o := Parts(t, sv, q);
    keys, soul, t' := o.keys, o.soul, Imported(t, sv, q).value.tables.memories;
  }

  /** After an import the tables hold one row more for each adaptation of the bundle, in its order. */
  lemma ImportStoresAdaptations(t: Tables, sv: Memories.Services, q: Request) returns (soul: SoulId, rows: seq<AdaptationRow>)
    requires Imported(t, sv, q).Ok?
    ensures soul == TargetOf(t, sv, q)
    ensures Imported(t, sv, q).value.tables.adaptations == t.adaptations + rows && |rows| == |q.bundle.adaptations|
    ensures forall i :: 0 <= i < |rows| ==>
      AdaptationStored(rows[i], q.bundle.adaptations[i], soul, q.draws.adaptations(i).id, q.now)
  {
    var keys, t';
    keys, soul, t' := AdaptationsPart(t, sv, q);
    rows := AllAdaptationsStored(keys, sv.master, t.adaptations, t', soul, q.bundle.adaptations, q.draws.adaptations, q.now);
  }

  /** And one row more for each of its memories. */
  lemma ImportStoresMemories(t: Tables, sv: Memories.Services, q: Request) returns (soul: SoulId, rows: seq<MemoryRow>)
    requires Imported(t, sv, q).Ok?
    ensures soul == TargetOf(t, sv, q)
    ensures Imported(t, sv, q).value.tables.memories == t.memories + rows && |rows| == |q.bundle.memories|
    ensures forall i :: 0 <= i < |rows| ==>
      MemoryStored(rows[i], q.bundle.memories[i], soul, q.draws.memories(i).id, q.recompute, sv.embed, q.now)
  {
    var keys, t';
    keys, soul, t' := MemoriesPart(t, sv, q);
    rows := AllMemoriesStored(keys, sv, t.memories, t', soul, q.bundle.memories, q.recompute, q.draws.memories, q.now);
  }

  // -- which properties are counted as stored --

  /** How many of the properties, from the `i`-th on, `set_property` accepts. */
  function AcceptedCount(s: seq<PropertyRecord>, i: nat): nat
    requires i <= |s|
    decreases |s| - i
  {
    if i == |s| then 0 else (if Accepted(s[i]) then 1 else 0) + AcceptedCount(s, i + 1)
  }

  lemma PropertyIsCounted(keys: KeyTable, master: Key, c: PropertyCount, soul: SoulId, p: PropertyRecord, mode: Mode, nonce: Nonce)
    requires TableDek(keys, master, soul).Ok?
    ensures var c', live := CountProperty(keys, master, c, soul, p, mode, nonce), Properties.Live(c.table, soul);
      c'.stored == c.stored + if Accepted(p) && !(mode.Skip? && p.ptype in live) then 1 else 0
  {
    Properties.LiveAt(c.table, soul, p.ptype);
    AcceptedIsWritten(keys, master, PropertyKey(soul, p.ptype), p, nonce);
  }

  lemma PutSize(m: map<string, Json>, p: PropertyRecord)
    ensures |Merge.Put(m, PropertyEntry(p), true)| == |m| + if Accepted(p) && p.ptype !in m then 1 else 0
  {
  }

  lemma PropertyGrows(keys: KeyTable, master: Key, c: PropertyCount, soul: SoulId, p: PropertyRecord, mode: Mode, nonce: Nonce)
    requires TableDek(keys, master, soul).Ok?
    ensures var c' := CountProperty(keys, master, c, soul, p, mode, nonce);
      c'.stored == c.stored + if mode.Skip? then |Properties.Live(c'.table, soul)| - |Properties.Live(c.table, soul)|
                              else if Accepted(p) then 1 else 0
  {
    PropertyIsCounted(keys, master, c, soul, p, mode, nonce);
    if mode.Skip? {
      CountedProperty(keys, master, c, soul, p, mode, nonce);
      PutSize(Properties.Live(c.table, soul), p);
    }
  }

  /** Overwriting stores every acceptable property; skipping stores as many as there are active ones more. */
  lemma {:induction false} StoredProperties(keys: KeyTable, master: Key, soul: SoulId, s: seq<PropertyRecord>, mode: Mode,
                                            draw: nat -> Nonce, i: nat, c: PropertyCount)
    requires i <= |s| && TableDek(keys, master, soul).Ok?
    ensures var r := PropertiesFrom(keys, master, soul, s, mode, draw, i, c);
      r.stored == c.stored + if mode.Skip? then |Properties.Live(r.table, soul)| - |Properties.Live(c.table, soul)|
                             else AcceptedCount(s, i)
    decreases |s| - i
  {
    if i == |s| {
      CountedAll(keys, master, soul, s, mode, draw, c);
    } else {
      PropertyGrows(keys, master, c, soul, s[i], mode, draw(i));
      CountedNext(keys, master, soul, s, mode, draw, i, c);
      StoredProperties(keys, master, soul, s, mode, draw, i + 1, CountProperty(keys, master, c, soul, s[i], mode, draw(i)));
    }
  }

  /** What an import counts as stored. */
  lemma ImportCountsProperties(t: Tables, sv: Memories.Services, q: Request)
    requires Imported(t, sv, q).Ok?
    ensures var d, soul := Imported(t, sv, q).value, TargetOf(t, sv, q);
      var before, after := Properties.Live(t.properties, soul), Properties.Live(d.tables.properties, soul);
      d.stats.properties == if q.mode.Skip? then |after| - |before| else AcceptedCount(q.bundle.properties, 0)
  {
    var o := Parts(t, sv, q);
    StoredProperties(o.keys, sv.master, o.soul, q.bundle.properties, q.mode, q.draws.properties, 0,
                     PropertyCount(t.properties, 0, 0));
  }
}
