/**
  Exporting a soul: every row of it, decrypted, in the order the queries ask for.

  Each part of an export is a list, specified by the table it comes from and the order of its query, and
  read by a loop over the rows. Only a missing key or a row that does not open can stop an export. The
  records of a bundle carry the fields a bundle may lack as options.
 */
module Export {
  import opened Prelude
  import opened Crypto
  import opened Store
  import opened Ordering
  import opened KeyCache
  import SelfCore
  import Facts
  import Properties
  import Adaptations
  import Memories

  datatype FactRecord = FactRecord(name: Facts.FactName, value: string, confidence: Option<real>, status: Option<Liveness>)

  datatype PropertyRecord = PropertyRecord(ptype: string, version: int, value: Option<Json>, sensitive: bool, status: Liveness)

  datatype AdaptationRecord = AdaptationRecord(
    category: Category, content: string, confidence: Option<real>, source: Option<string>, status: Option<Lifecycle>,
    createdAt: Option<Time>)

  datatype MemoryRecord = MemoryRecord(
    content: string, salience: Option<real>, status: Option<MemoryStatus>, tags: seq<string>, flags: seq<string>,
    client: Option<string>, embedding: seq<real>, createdAt: Option<Time>, lastRecalledAt: Option<Time>, recallCount: nat)

  datatype Bundle = Bundle(
    schemaVersion: int, hasSource: bool, hasCore: bool, core: SelfCore.BundleCore, facts: seq<FactRecord>,
    properties: seq<PropertyRecord>, adaptations: seq<AdaptationRecord>, memories: seq<MemoryRecord>)

  const EXPORT_SCHEMA_VERSION := 1

  // ---- what rows must satisfy to be readable ----

  predicate TextSealed(s: Sealed, dek: Result<Key, KeyError>, soul: SoulId, domain: Domain) {
    dek.Ok? && SealedFor(s, dek.value, soul, domain) && s.plain.Text?
  }

  ghost predicate CoresOk(keys: KeyTable, master: Key, l: Ledger) {
    && (forall soul :: soul in l.cores ==> TextSealed(l.cores[soul].content, TableDek(keys, master, soul), soul, SelfCoreDomain))
    && (forall k :: k in l.history ==> TextSealed(l.history[k].content, TableDek(keys, master, k.soul), k.soul, SelfCoreDomain))
  }

  /** Every row of every table is sealed under its own soul's key, and the versions are in order. */
  ghost predicate Healthy(t: Tables, master: Key) {
    && CoresOk(t.keys, master, t.ledger) && SelfCore.LedgerInv(t.ledger)
    && Facts.FactsOk(t.keys, master, t.facts)
    && Properties.PropertiesOk(t.keys, master, t.properties)
    && Adaptations.RowsOk(t.keys, master, t.adaptations)
    && Memories.RowsOk(t.keys, master, t.memories)
  }

  // -- the rows of one soul, readable with its key --

  ghost predicate CoreOpens(cores: map<SoulId, CoreRow>, soul: SoulId, dek: Key) {
    soul in cores ==> TextSealed(cores[soul].content, Ok(dek), soul, SelfCoreDomain)
  }

  ghost predicate HistoryOpens(history: map<VersionKey, HistoryRow>, soul: SoulId, dek: Key) {
    forall k :: k in history && k.soul == soul ==> TextSealed(history[k].content, Ok(dek), soul, SelfCoreDomain)
  }

  ghost predicate FactsOpen(facts: FactTable, soul: SoulId, dek: Key) {
    forall k :: k in facts && k.soul == soul ==> Facts.RowOk(facts[k], soul, Ok(dek))
  }

  ghost predicate PropertiesOpen(props: PropertyTable, soul: SoulId, dek: Key) {
    forall k :: k in props && k.soul == soul ==> Properties.RowOk(props[k], k, Ok(dek))
  }

  ghost predicate AdaptationsOpen(t: AdaptationTable, soul: SoulId, dek: Key) {
    forall i :: 0 <= i < |t| && t[i].soul == soul ==> Adaptations.RowOk(t[i], Ok(dek))
  }

  ghost predicate MemoriesOpen(t: MemoryTable, soul: SoulId, dek: Key) {
    forall i :: 0 <= i < |t| && t[i].soul == soul ==> Memories.RowOk(t[i], Ok(dek))
  }

  function OpenText(s: Sealed, dek: Key, soul: SoulId, domain: Domain): Option<string> {
    match Decrypt(s, dek, Aad(soul, domain))
    case Some(Text(text)) => Some(text)
    case _ => None
  }

  // ---- Self Core ----

  function Versions(history: map<VersionKey, HistoryRow>, soul: SoulId): set<int> {
    set k | k in history && k.soul == soul :: k.version
  }

  function VersionNumber(v: SelfCore.BundleVersion): int { v.version }

  function VersionRecord(version: int, row: HistoryRow): SelfCore.BundleVersion {
    SelfCore.BundleVersion(version, TextOf(row.content), row.note)
  }

  /** The soul's archived versions in ascending order. */
  ghost predicate HistoryExport(s: seq<SelfCore.BundleVersion>, history: map<VersionKey, HistoryRow>, soul: SoulId) {
    && Lists(Map(VersionNumber, s), Versions(history, soul), IntLess)
    && forall i :: 0 <= i < |s| ==>
         VersionKey(soul, s[i].version) in history && s[i] == VersionRecord(s[i].version, history[VersionKey(soul, s[i].version)])
  }

  ghost predicate CoreExport(c: SelfCore.BundleCore, l: Ledger, soul: SoulId) {
    && HistoryExport(c.history, l.history, soul)
    && c.version == Some(SelfCore.VersionOf(l, soul))
    && c.content == if soul in l.cores then Some(TextOf(l.cores[soul].content)) else None
  }

  method ExportHistory(db: Database, soul: SoulId, dek: Key) returns (r: Option<seq<SelfCore.BundleVersion>>)
    ensures r.Some? ==> HistoryExport(r.value, db.history, soul)
    ensures HistoryOpens(db.history, soul, dek) ==> r.Some?
  {
    IntOrder();
    var versions := OrderBy(Versions(db.history, soul), IntLess);
    var s: seq<SelfCore.BundleVersion> := [];
    for i := 0 to |versions|
      invariant |s| == i
      invariant forall j :: 0 <= j < i ==>
        && s[j].version == versions[j] && VersionKey(soul, versions[j]) in db.history
        && s[j] == VersionRecord(versions[j], db.history[VersionKey(soul, versions[j])])
    {
      assert versions[i] in versions;
      var k := VersionKey(soul, versions[i]);
      var content := OpenText(db.history[k].content, dek, soul, SelfCoreDomain);
      if content.None? {
        return None;
      }
      s := s + [SelfCore.BundleVersion(versions[i], content.value, db.history[k].note)];
    }
    assert Map(VersionNumber, s) == versions;
    return Some(s);
  }

  method ExportCore(db: Database, soul: SoulId, dek: Key) returns (r: Option<SelfCore.BundleCore>)
    ensures r.Some? ==> CoreExport(r.value, db.CoreLedger(), soul)
    ensures CoreOpens(db.cores, soul, dek) && HistoryOpens(db.history, soul, dek) ==> r.Some?
  {
    var version, content := 0, None;
    if soul in db.cores {
      content := OpenText(db.cores[soul].content, dek, soul, SelfCoreDomain);
      if content.None? {
        return None;
      }
      version := db.cores[soul].version;
    }
    var history := ExportHistory(db, soul, dek);
    if history.None? {
      return None;
    }
    return Some(SelfCore.BundleCore(Some(version), content, history.value));
  }

  // ---- facts ----

  datatype PlainFact = PlainFact(value: string, confidence: real, status: Liveness)

  function PlainFactOf(row: FactRow): PlainFact { PlainFact(TextOf(row.value), row.confidence, row.status) }

  /** The soul's facts, the forgotten ones included when `all`. */
  function FactsOf(facts: FactTable, soul: SoulId, all: bool): map<Facts.FactName, PlainFact> {
    map k | k in facts && k.soul == soul && (all || facts[k].status.Active?) ::
      Facts.FactName(k.category, k.key) := PlainFactOf(facts[k])
  }

  function RecordName(f: FactRecord): Facts.FactName { f.name }

  function FactRecordOf(n: Facts.FactName, f: PlainFact): FactRecord {
    FactRecord(n, f.value, Some(f.confidence), Some(f.status))
  }

  ghost predicate FactsExport(s: seq<FactRecord>, known: map<Facts.FactName, PlainFact>) {
    && Lists(Map(RecordName, s), known.Keys, Facts.NameLess)
    && forall i :: 0 <= i < |s| ==> s[i].name in known && s[i] == FactRecordOf(s[i].name, known[s[i].name])
  }

  lemma FactsOfAt(facts: FactTable, soul: SoulId, all: bool, n: Facts.FactName)
    ensures var k := FactKey(soul, n.category, n.key);
            && (n in FactsOf(facts, soul, all) <==> k in facts && (all || facts[k].status.Active?))
            && (n in FactsOf(facts, soul, all) ==> FactsOf(facts, soul, all)[n] == PlainFactOf(facts[k]))
  {
    var k := FactKey(soul, n.category, n.key);
    assert k in facts ==> Facts.NameOf(k) == n;
  }

  function ReadFact(n: Facts.FactName, row: FactRow, soul: SoulId, dek: Key): (r: Option<FactRecord>)
    ensures r.Some? ==> r.value == FactRecordOf(n, PlainFactOf(row))
    ensures Facts.RowOk(row, soul, Ok(dek)) ==> r.Some?
  {
    match OpenText(row.value, dek, soul, FactDomain)
    case None => None
    case Some(value) => Some(FactRecord(n, value, Some(row.confidence), Some(row.status)))
  }

  function KeyOf(soul: SoulId, n: Facts.FactName): FactKey { FactKey(soul, n.category, n.key) }

  /** The loop over the selected rows. */
  method ReadFacts(facts: FactTable, soul: SoulId, dek: Key, names: seq<Facts.FactName>) returns (r: Option<seq<FactRecord>>)
    requires forall j :: 0 <= j < |names| ==> KeyOf(soul, names[j]) in facts
    ensures r.Some? ==>
      && |r.value| == |names|
      && forall j :: 0 <= j < |names| ==> r.value[j] == FactRecordOf(names[j], PlainFactOf(facts[KeyOf(soul, names[j])]))
    ensures FactsOpen(facts, soul, dek) ==> r.Some?
  {
    var s := [];
    for i := 0 to |names|
      invariant |s| == i
      invariant forall j :: 0 <= j < i ==> s[j] == FactRecordOf(names[j], PlainFactOf(facts[KeyOf(soul, names[j])]))
    {
      var rec := ReadFact(names[i], facts[KeyOf(soul, names[i])], soul, dek);
      if rec.None? {
        return None;
      }
      s := s + [rec.value];
    }
    return Some(s);
  }

  lemma NamesHaveRows(names: seq<Facts.FactName>, facts: FactTable, soul: SoulId, all: bool)
    requires Lists(names, FactsOf(facts, soul, all).Keys, Facts.NameLess)
    ensures forall j :: 0 <= j < |names| ==>
      && names[j] in FactsOf(facts, soul, all) && KeyOf(soul, names[j]) in facts
      && FactsOf(facts, soul, all)[names[j]] == PlainFactOf(facts[KeyOf(soul, names[j])])
  {
    forall j | 0 <= j < |names|
      ensures names[j] in FactsOf(facts, soul, all) && KeyOf(soul, names[j]) in facts
      ensures FactsOf(facts, soul, all)[names[j]] == PlainFactOf(facts[KeyOf(soul, names[j])])
    {
      assert names[j] in names;
      FactsOfAt(facts, soul, all, names[j]);
    }
  }

  lemma ListedFactsExport(s: seq<FactRecord>, names: seq<Facts.FactName>, known: map<Facts.FactName, PlainFact>)
    requires Lists(names, known.Keys, Facts.NameLess) && |s| == |names|
    requires forall j :: 0 <= j < |s| ==> names[j] in known && s[j] == FactRecordOf(names[j], known[names[j]])
    ensures FactsExport(s, known)
  {
    assert forall j :: 0 <= j < |s| ==> s[j].name == names[j];
    assert Map(RecordName, s) == names;
  }

  method ExportFacts(db: Database, soul: SoulId, dek: Key, all: bool) returns (r: Option<seq<FactRecord>>)
    ensures r.Some? ==> FactsExport(r.value, FactsOf(db.facts, soul, all))
    ensures FactsOpen(db.facts, soul, dek) ==> r.Some?
  {
    Facts.NameOrder();
    var names := OrderBy(FactsOf(db.facts, soul, all).Keys, Facts.NameLess);
    NamesHaveRows(names, db.facts, soul, all);
    r := ReadFacts(db.facts, soul, dek, names);
    if r.Some? { ListedFactsExport(r.value, names, FactsOf(db.facts, soul, all)); }
  }

  // ---- properties: only the active ones ----

  function RecordType(p: PropertyRecord): string { p.ptype }

  function PropertyRecordOf(ptype: string, row: PropertyRow): PropertyRecord {
    PropertyRecord(ptype, row.version, Some(Properties.PlainValue(row)), row.sensitive, row.status)
  }

  function PropertiesOf(props: PropertyTable, soul: SoulId): map<string, PropertyRecord> {
    map k | k in props && k.soul == soul && props[k].status.Active? :: k.ptype := PropertyRecordOf(k.ptype, props[k])
  }

  ghost predicate PropertiesExport(s: seq<PropertyRecord>, live: map<string, PropertyRecord>) {
    && Lists(Map(RecordType, s), live.Keys, StringLess)
    && forall i :: 0 <= i < |s| ==> s[i].ptype in live && s[i] == live[s[i].ptype]
  }

  lemma PropertiesOfAt(props: PropertyTable, soul: SoulId, ptype: string)
    ensures var k := PropertyKey(soul, ptype);
            && (ptype in PropertiesOf(props, soul) <==> Properties.IsActive(props, k))
            && (ptype in PropertiesOf(props, soul) ==> PropertiesOf(props, soul)[ptype] == PropertyRecordOf(ptype, props[k]))
  {
    assert PropertyKey(soul, ptype) in props ==> PropertyKey(soul, ptype).ptype == ptype;
  }

  function ReadProperty(ptype: string, row: PropertyRow, soul: SoulId, dek: Key): (r: Option<PropertyRecord>)
    ensures r.Some? ==> r.value.ptype == ptype
    ensures Properties.RowOk(row, PropertyKey(soul, ptype), Ok(dek)) ==> r == Some(PropertyRecordOf(ptype, row))
  {
    match Properties.DeserializeValue(row, soul, dek)
    case None => None
    case Some(value) => Some(PropertyRecord(ptype, row.version, Some(value), row.sensitive, row.status))
  }

  method ReadProperties(props: PropertyTable, soul: SoulId, dek: Key, types: seq<string>) returns (r: Option<seq<PropertyRecord>>)
    requires forall j :: 0 <= j < |types| ==> PropertyKey(soul, types[j]) in props
    ensures PropertiesOpen(props, soul, dek) ==>
      r.Some? && |r.value| == |types|
      && forall j :: 0 <= j < |types| ==> r.value[j] == PropertyRecordOf(types[j], props[PropertyKey(soul, types[j])])
  {
    var s := [];
    for i := 0 to |types|
      invariant |s| == i
      invariant PropertiesOpen(props, soul, dek) ==>
        forall j :: 0 <= j < i ==> s[j] == PropertyRecordOf(types[j], props[PropertyKey(soul, types[j])])
    {
      var rec := ReadProperty(types[i], props[PropertyKey(soul, types[i])], soul, dek);
      if rec.None? {
        return None;
      }
      s := s + [rec.value];
    }
    return Some(s);
  }

  lemma TypesHaveRows(types: seq<string>, props: PropertyTable, soul: SoulId)
    requires Lists(types, PropertiesOf(props, soul).Keys, StringLess)
    ensures forall j :: 0 <= j < |types| ==>
      && types[j] in PropertiesOf(props, soul) && PropertyKey(soul, types[j]) in props
      && PropertiesOf(props, soul)[types[j]] == PropertyRecordOf(types[j], props[PropertyKey(soul, types[j])])
  {
    forall j | 0 <= j < |types|
      ensures types[j] in PropertiesOf(props, soul) && PropertyKey(soul, types[j]) in props
      ensures PropertiesOf(props, soul)[types[j]] == PropertyRecordOf(types[j], props[PropertyKey(soul, types[j])])
    {
      assert types[j] in types;
      PropertiesOfAt(props, soul, types[j]);
    }
  }

  lemma ListedPropertiesExport(s: seq<PropertyRecord>, types: seq<string>, live: map<string, PropertyRecord>)
    requires Lists(types, live.Keys, StringLess) && |s| == |types|
    requires forall j :: 0 <= j < |s| ==> types[j] in live && s[j] == live[types[j]] && s[j].ptype == types[j]
    ensures PropertiesExport(s, live)
  {
    assert Map(RecordType, s) == types;
  }

  method ExportProperties(db: Database, soul: SoulId, dek: Key) returns (r: Option<seq<PropertyRecord>>)
    ensures PropertiesOpen(db.properties, soul, dek) ==>
              r.Some? && PropertiesExport(r.value, PropertiesOf(db.properties, soul))
  {
    StringOrder();
    var types := OrderBy(PropertiesOf(db.properties, soul).Keys, StringLess);
    TypesHaveRows(types, db.properties, soul);
    r := ReadProperties(db.properties, soul, dek, types);
    if PropertiesOpen(db.properties, soul, dek) { ListedPropertiesExport(r.value, types, PropertiesOf(db.properties, soul)); }
  }

  // ---- adaptations and memories: in the order they were created ----

  function AdaptationRecordOf(row: AdaptationRow): AdaptationRecord {
    AdaptationRecord(row.category, TextOf(row.content), Some(row.confidence), row.source, Some(row.status),
                     Some(row.createdAt))
  }

  predicate AdaptationWanted(row: AdaptationRow, soul: SoulId, all: bool) { row.soul == soul && (all || row.status.Current?) }

  function AdaptationsOf(t: AdaptationTable, soul: SoulId, all: bool): seq<AdaptationRecord> {
    if t == [] then []
    else
      var n := |t| - 1;
      AdaptationsOf(t[..n], soul, all) + if AdaptationWanted(t[n], soul, all) then [AdaptationRecordOf(t[n])] else []
  }

  function MemoryRecordOf(row: MemoryRow): MemoryRecord {
    MemoryRecord(TextOf(row.content), Some(row.salience), Some(row.status), row.tags, row.flags, row.client,
                 row.embedding,
                 Some(row.createdAt), row.lastRecalledAt, row.recallCount)
  }

  predicate MemoryWanted(row: MemoryRow, soul: SoulId, all: bool) {
    row.soul == soul && (all || row.status.Confirmed? || row.status.Pending?)
  }

  function MemoriesOf(t: MemoryTable, soul: SoulId, all: bool): seq<MemoryRecord> {
    if t == [] then []
    else
      var n := |t| - 1;
      MemoriesOf(t[..n], soul, all) + if MemoryWanted(t[n], soul, all) then [MemoryRecordOf(t[n])] else []
  }

  /** The same records, by ascending time. */
  ghost predicate InTimeOrder<R>(s: seq<R>, rows: seq<R>, time: R -> real) {
    multiset(s) == multiset(rows) && forall i, j :: 0 <= i < j < |s| ==> time(s[i]) <= time(s[j])
  }

  function TimeOf(createdAt: Option<Time>): real { if createdAt.Some? then createdAt.value else 0.0 }

  function AdaptationTime(a: AdaptationRecord): real { TimeOf(a.createdAt) }

  function MemoryTime(m: MemoryRecord): real { TimeOf(m.createdAt) }

  method InsertByTime<R>(s: seq<R>, ghost rows: seq<R>, x: R, time: R -> real) returns (r: seq<R>)
    requires InTimeOrder(s, rows, time)
    ensures InTimeOrder(r, rows + [x], time)
  {
    var i := |s|;
    while i > 0 && time(s[i - 1]) > time(x)
      invariant 0 <= i <= |s| && forall j :: i <= j < |s| ==> time(x) < time(s[j])
    {
      i := i - 1;
    }
    r := s[..i] + [x] + s[i..];
    Inserted(s, i, x, time);
    InsertedHolds(s, i, x);
    assert multiset(rows + [x]) == multiset(rows) + multiset{x};
  }

  lemma InsertedHolds<R>(s: seq<R>, i: nat, x: R)
    requires i <= |s|
    ensures multiset(s[..i] + [x] + s[i..]) == multiset(s) + multiset{x}
  {
    assert s == s[..i] + s[i..];
  }

  lemma Inserted<R>(s: seq<R>, i: nat, x: R, time: R -> real)
    requires i <= |s| && forall j, k :: 0 <= j < k < |s| ==> time(s[j]) <= time(s[k])
    requires i > 0 ==> time(s[i - 1]) <= time(x)
    requires forall j :: i <= j < |s| ==> time(x) < time(s[j])
    ensures var r := s[..i] + [x] + s[i..]; forall j, k :: 0 <= j < k < |r| ==> time(r[j]) <= time(r[k])
  {
  }

  lemma NextAdaptation(t: AdaptationTable, soul: SoulId, all: bool, i: nat)
    requires i < |t|
    ensures AdaptationsOf(t[..i + 1], soul, all)
         == if AdaptationWanted(t[i], soul, all) then AdaptationsOf(t[..i], soul, all) + [AdaptationRecordOf(t[i])]
            else AdaptationsOf(t[..i], soul, all)
  {
    assert t[..i + 1][..i] == t[..i];
    assert AdaptationsOf(t[..i], soul, all) + [] == AdaptationsOf(t[..i], soul, all);
  }

  lemma NextMemory(t: MemoryTable, soul: SoulId, all: bool, i: nat)
    requires i < |t|
    ensures MemoriesOf(t[..i + 1], soul, all)
         == if MemoryWanted(t[i], soul, all) then MemoriesOf(t[..i], soul, all) + [MemoryRecordOf(t[i])]
            else MemoriesOf(t[..i], soul, all)
  {
    assert t[..i + 1][..i] == t[..i];
    assert MemoriesOf(t[..i], soul, all) + [] == MemoriesOf(t[..i], soul, all);
  }

  function ReadAdaptation(row: AdaptationRow, soul: SoulId, dek: Key): (r: Option<AdaptationRecord>)
    ensures r.Some? ==> r.value == AdaptationRecordOf(row)
    ensures row.soul == soul && Adaptations.RowOk(row, Ok(dek)) ==> r.Some?
  {
    match OpenText(row.content, dek, soul, AdaptationDomain)
    case None => None
    case Some(content) =>
      Some(AdaptationRecord(row.category, content, Some(row.confidence), row.source, Some(row.status), Some(row.createdAt)))
  }

  function ReadMemory(row: MemoryRow, soul: SoulId, dek: Key): (r: Option<MemoryRecord>)
    ensures r.Some? ==> r.value == MemoryRecordOf(row)
    ensures row.soul == soul && Memories.RowOk(row, Ok(dek)) ==> r.Some?
  {
    match OpenText(row.content, dek, soul, MemoryDomain)
    case None => None
    case Some(content) =>
      Some(MemoryRecord(content, Some(row.salience), Some(row.status), row.tags, row.flags, row.client, row.embedding,
                        Some(row.createdAt), row.lastRecalledAt, row.recallCount))
  }

  method ExportAdaptations(db: Database, soul: SoulId, dek: Key, all: bool) returns (r: Option<seq<AdaptationRecord>>)
    ensures r.Some? ==> InTimeOrder(r.value, AdaptationsOf(db.adaptations, soul, all), AdaptationTime)
    ensures AdaptationsOpen(db.adaptations, soul, dek) ==> r.Some?
  {
    var t := db.adaptations;
    var s: seq<AdaptationRecord> := [];
    for i := 0 to |t|
      invariant InTimeOrder(s, AdaptationsOf(t[..i], soul, all), AdaptationTime)
    {
      NextAdaptation(t, soul, all, i);
      if AdaptationWanted(t[i], soul, all) {
        var rec := ReadAdaptation(t[i], soul, dek);
        if rec.None? {
          return None;
        }
        s := InsertByTime(s, AdaptationsOf(t[..i], soul, all), rec.value, AdaptationTime);
      }
    }
    assert t[..|t|] == t;
    return Some(s);
  }

  method ExportMemories(db: Database, soul: SoulId, dek: Key, all: bool) returns (r: Option<seq<MemoryRecord>>)
    ensures r.Some? ==> InTimeOrder(r.value, MemoriesOf(db.memories, soul, all), MemoryTime)
    ensures MemoriesOpen(db.memories, soul, dek) ==> r.Some?
  {
    var t := db.memories;
    var s: seq<MemoryRecord> := [];
    for i := 0 to |t|
      invariant InTimeOrder(s, MemoriesOf(t[..i], soul, all), MemoryTime)
    {
      NextMemory(t, soul, all, i);
      if MemoryWanted(t[i], soul, all) {
        var rec := ReadMemory(t[i], soul, dek);
        if rec.None? {
          return None;
        }
        s := InsertByTime(s, MemoriesOf(t[..i], soul, all), rec.value, MemoryTime);
      }
    }
    assert t[..|t|] == t;
    return Some(s);
  }

  // ---- the whole soul ----

  /** `b` is an export of the soul. Rows created at the same time may come in any order. */
  ghost predicate IsExport(b: Bundle, t: Tables, soul: SoulId, all: bool) {
    && b.schemaVersion == EXPORT_SCHEMA_VERSION && b.hasSource && b.hasCore
    && CoreExport(b.core, t.ledger, soul)
    && FactsExport(b.facts, FactsOf(t.facts, soul, all))
    && PropertiesExport(b.properties, PropertiesOf(t.properties, soul))
    && InTimeOrder(b.adaptations, AdaptationsOf(t.adaptations, soul, all), AdaptationTime)
    && InTimeOrder(b.memories, MemoriesOf(t.memories, soul, all), MemoryTime)
  }

  method ExportSoul(db: Database, master: Key, soul: SoulId, all: bool) returns (r: Result<Bundle, KeyError>)
    ensures Healthy(db.Contents(), master) && r.Ok? ==> IsExport(r.value, db.Contents(), soul, all)
    ensures Healthy(db.Contents(), master) ==>
              match TableDek(db.keys, master, soul)
              case Ok(_) => r.Ok?
              case Err(e) => r == Err(e)
  {
    var dek := TableDek(db.keys, master, soul);
    if dek.Err? {
      return Err(dek.error);
    }
    if Healthy(db.Contents(), master) { RowsOpen(db, master, soul); }
    var core := ExportCore(db, soul, dek.value);
    var facts := ExportFacts(db, soul, dek.value, all);
    var properties := ExportProperties(db, soul, dek.value);
    var adaptations := ExportAdaptations(db, soul, dek.value, all);
    var memories := ExportMemories(db, soul, dek.value, all);
    if core.None? || facts.None? || properties.None? || adaptations.None? || memories.None? {
      return Err(BadTag);
    }
    return Ok(Bundle(EXPORT_SCHEMA_VERSION, true, true, core.value, facts.value, properties.value, adaptations.value, memories.value));
  }

  lemma RowsOpen(db: Database, master: Key, soul: SoulId)
    requires Healthy(db.Contents(), master) && TableDek(db.keys, master, soul).Ok?
    ensures var dek := TableDek(db.keys, master, soul).value;
      && CoreOpens(db.cores, soul, dek) && HistoryOpens(db.history, soul, dek)
      && FactsOpen(db.facts, soul, dek) && PropertiesOpen(db.properties, soul, dek)
      && AdaptationsOpen(db.adaptations, soul, dek) && MemoriesOpen(db.memories, soul, dek)
  {
  }

  /** There is one way to export facts, properties and versions. */
  lemma FactsExportIsUnique(s: seq<FactRecord>, s': seq<FactRecord>, known: map<Facts.FactName, PlainFact>)
    requires FactsExport(s, known) && FactsExport(s', known)
    ensures s == s'
  {
    Facts.NameOrder();
    var name := RecordName;
    ListingIsUnique(Map(name, s), Map(name, s'), known.Keys, Facts.NameLess);
    forall i | 0 <= i < |s| ensures s[i] == s'[i] { assert Map(name, s)[i] == Map(name, s')[i]; }
  }

  lemma PropertiesExportIsUnique(s: seq<PropertyRecord>, s': seq<PropertyRecord>, live: map<string, PropertyRecord>)
    requires PropertiesExport(s, live) && PropertiesExport(s', live)
    ensures s == s'
  {
    StringOrder();
    var ptype := RecordType;
    ListingIsUnique(Map(ptype, s), Map(ptype, s'), live.Keys, StringLess);
    forall i | 0 <= i < |s| ensures s[i] == s'[i] { assert Map(ptype, s)[i] == Map(ptype, s')[i]; }
  }
}
