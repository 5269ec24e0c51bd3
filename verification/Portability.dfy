/**
  The import of a whole bundle, as a new soul or merged into an existing one: what a merge means, that
  it is atomic, and that it leaves every row sealed for its own soul.
 */
module Portability {
  import opened Prelude
  import opened Crypto
  import opened Store
  import opened KeyCache
  import opened Export
  import opened Import
  import Merge
  import Ordering
  import SelfCore
  import Facts
  import Properties
  import Adaptations
  import Memories

  datatype ImportError =
    | UnsupportedVersion
    | MissingSource
    | MissingCore
    | BadMode
    | NoSuchSoul
    | NoSuchUser
    | NoTarget
    | Unreadable(error: KeyError)
    | Database(db: DbError)
    | BadAdaptation(adaptation: Adaptations.AdaptationError)
    | BadMemory(memory: Memories.MemoryError)

  /** Merge into the soul a slug names, if it names one, or create a soul for a user, under a slug free in the tenant. */
  datatype Target =
    | Into(soul: Option<SoulId>)
    | NewSoul(userExists: bool, slugFree: bool, id: SoulId, dek: Key, nonce: Nonce)
    | Unspecified

  /** The random values an import draws. */
  datatype Draws = Draws(core: Nonce, history: nat -> Nonce, facts: nat -> Draw, properties: nat -> Nonce,
                         adaptations: nat -> Draw, memories: nat -> Draw)

  datatype Request = Request(bundle: Bundle, target: Target, mode: Mode, recompute: bool, user: string, draws: Draws, now: Time)

  datatype Stats = Stats(createdNew: bool, selfCore: nat, memories: nat, facts: nat, properties: nat, adaptations: nat,
                         skippedProperties: nat)

  datatype Done = Done(tables: Tables, stats: Stats)

  // ---- the specification ----

  function Validation(q: Request): Outcome<ImportError> {
    if q.bundle.schemaVersion != EXPORT_SCHEMA_VERSION then Fail(UnsupportedVersion)
    else if !q.bundle.hasSource then Fail(MissingSource)
    else if !q.bundle.hasCore then Fail(MissingCore)
    else if q.mode.OtherMode? then Fail(BadMode)
    else Pass
  }

  datatype Opening = Opening(soul: SoulId, dek: Key, keys: KeyTable, created: bool)

  /** The target soul and its key; a new soul's key row is inserted first. */
  function Open(keys: KeyTable, master: Key, target: Target): Result<Opening, ImportError> {
    match target
    case Unspecified => Err(NoTarget)
    case Into(None) => Err(NoSuchSoul)
    case Into(Some(soul)) => (
      match TableDek(keys, master, soul)
      case Err(e) => Err(Unreadable(e))
      case Ok(dek) => Ok(Opening(soul, dek, keys, false)))
    case NewSoul(userExists, slugFree, id, dek, nonce) =>
      if !userExists then Err(NoSuchUser)
      else if id in keys || !slugFree then Err(Database(UniqueViolation))
      else Ok(Opening(id, dek, keys[id := WrapDek(dek, master, nonce, Aad(id, DekDomain))], true))
  }

  predicate HasCore(b: Bundle) { b.core.content.Some? && b.core.content.value != "" }

  ghost function Fill(t: Tables, sv: Memories.Services, o: Opening, q: Request): Result<Done, ImportError> {
    match SelfCore.Bundle(t.ledger, o.soul, q.bundle.core, q.user, o.dek, q.draws.core, q.draws.history)
    case Err(e) => Err(Database(e))
    case Ok(ledger) =>
      match FactsFrom(t.facts, o.soul, o.dek, q.bundle.facts, q.mode, q.draws.facts, 0)
      case Err(e) => Err(Database(e))
      case Ok(facts) =>
        match AdaptationsFrom(o.keys, sv.master, t.adaptations, o.soul, q.bundle.adaptations, q.draws.adaptations, q.now, 0)
        case Err(e) => Err(BadAdaptation(e))
        case Ok(adaptations) =>
          match MemoriesFrom(o.keys, sv, t.memories, o.soul, q.bundle.memories, q.recompute, q.draws.memories, q.now, 0)
          case Err(e) => Err(BadMemory(e))
          case Ok(memories) =>
            var c := PropertiesOfImport(t, sv.master, o, q);
            Ok(Done(Tables(o.keys, ledger, facts, c.table, adaptations, memories),
                    Stats(o.created, if HasCore(q.bundle) then 1 else 0, |q.bundle.memories|, |q.bundle.facts|, c.stored,
                          |q.bundle.adaptations|, c.skipped)))
  }

  function PropertiesOfImport(t: Tables, master: Key, o: Opening, q: Request): PropertyCount {
    PropertiesFrom(o.keys, master, o.soul, q.bundle.properties, q.mode, q.draws.properties, 0,
                   PropertyCount(t.properties, 0, 0))
  }

  ghost function Imported(t: Tables, sv: Memories.Services, q: Request): Result<Done, ImportError> {
    match Validation(q)
    case Fail(e) => Err(e)
    case Pass =>
      match Open(t.keys, sv.master, q.target)
      case Err(e) => Err(e)
      case Ok(o) => Fill(t, sv, o, q)
  }

  lemma OpenedHasKey(keys: KeyTable, master: Key, target: Target)
    requires Open(keys, master, target).Ok?
    ensures var o := Open(keys, master, target).value;
            && TableDek(o.keys, master, o.soul) == Ok(o.dek)
            && forall other :: other != o.soul ==> TableDek(o.keys, master, other) == TableDek(keys, master, other)
  {
  }

  // ---- the import ----

  method Restore(db: Database, t: Tables)
    modifies db
    ensures db.Contents() == t
  {
    db.keys, db.cores, db.history := t.keys, t.ledger.cores, t.ledger.history;
    db.facts, db.properties, db.adaptations, db.memories := t.facts, t.properties, t.adaptations, t.memories;
  }

  /** The loops of the import, on a database whose key table already holds the target's key. */
  method FillTables(db: Database, sv: Memories.Services, o: Opening, q: Request) returns (r: Result<Stats, ImportError>)
    requires db.keys == o.keys && TableDek(o.keys, sv.master, o.soul) == Ok(o.dek)
    modifies db`cores, db`history, db`facts, db`properties, db`adaptations, db`memories
    ensures match Fill(old(db.Contents()), sv, o, q)
      case Ok(done) => r == Ok(done.stats) && db.Contents() == done.tables
      case Err(e) => r == Err(e)
  {
    var b := q.bundle;
    var core := SelfCore.ImportCore(db, o.soul, b.core, q.user, o.dek, q.draws.core, q.draws.history);
    if core.Fail? {
      return Err(Database(core.error));
    }
    var facts := ImportFacts(db, o.soul, o.dek, b.facts, q.mode, q.draws.facts);
    if facts.Err? {
      return Err(Database(facts.error));
    }
    var stored, skipped := ImportProperties(db, sv.master, o.soul, b.properties, q.mode, q.draws.properties);
    var adaptations := ImportAdaptations(db, sv.master, o.soul, o.dek, b.adaptations, q.draws.adaptations, q.now);
    if adaptations.Err? {
      return Err(BadAdaptation(adaptations.error));
    }
    var memories := ImportMemories(db, sv, o.soul, o.dek, b.memories, q.recompute, q.draws.memories, q.now);
    if memories.Err? {
      return Err(BadMemory(memories.error));
    }
    return Ok(Stats(o.created, if HasCore(b) then 1 else 0, memories.value, facts.value, stored, adaptations.value, skipped));
  }

  /** All of the bundle, or nothing. */
  method ImportSoul(db: Database, sv: Memories.Services, q: Request) returns (r: Result<Stats, ImportError>)
    modifies db
    ensures match Imported(old(db.Contents()), sv, q)
      case Ok(done) => r == Ok(done.stats) && db.Contents() == done.tables
      case Err(e) => r == Err(e) && db.Contents() == old(db.Contents())
  {
    var valid := Validation(q);
    if valid.Fail? {
      return Err(valid.error);
    }
    var target := Open(db.keys, sv.master, q.target);
    if target.Err? {
      return Err(target.error);
    }
    OpenedHasKey(db.keys, sv.master, q.target);
    var before := db.Contents();
    db.keys := target.value.keys;
    FillIgnoresKeys(before, sv, target.value, q);
    r := FillTables(db, sv, target.value, q);
    if r.Err? {
      Restore(db, before);
    }
  }

  lemma FillIgnoresKeys(t: Tables, sv: Memories.Services, o: Opening, q: Request)
    ensures Fill(t.(keys := o.keys), sv, o, q) == Fill(t, sv, o, q)
  {
  }

  // ---- what an import does to the target soul ----

  ghost function TargetOf(t: Tables, sv: Memories.Services, q: Request): SoulId
    requires Imported(t, sv, q).Ok?
  {
    Open(t.keys, sv.master, q.target).value.soul
  }

  /** The parts of a successful import. */
  lemma Parts(t: Tables, sv: Memories.Services, q: Request) returns (o: Opening)
    requires Imported(t, sv, q).Ok?
    ensures Open(t.keys, sv.master, q.target) == Ok(o) && o.soul == TargetOf(t, sv, q)
    ensures TableDek(o.keys, sv.master, o.soul) == Ok(o.dek)
    ensures forall other :: other != o.soul ==> TableDek(o.keys, sv.master, other) == TableDek(t.keys, sv.master, other)
    ensures var d, b := Imported(t, sv, q).value, q.bundle;
      && d.tables.keys == o.keys
      && SelfCore.Bundle(t.ledger, o.soul, b.core, q.user, o.dek, q.draws.core, q.draws.history) == Ok(d.tables.ledger)
      && FactsFrom(t.facts, o.soul, o.dek, b.facts, q.mode, q.draws.facts, 0) == Ok(d.tables.facts)
      && PropertiesOfImport(t, sv.master, o, q) == PropertyCount(d.tables.properties, d.stats.properties, d.stats.skippedProperties)
      && AdaptationsFrom(o.keys, sv.master, t.adaptations, o.soul, b.adaptations, q.draws.adaptations, q.now, 0)
         == Ok(d.tables.adaptations)
      && MemoriesFrom(o.keys, sv, t.memories, o.soul, b.memories, q.recompute, q.draws.memories, q.now, 0) == Ok(d.tables.memories)
      && d.stats.memories == |b.memories| && d.stats.facts == |b.facts| && d.stats.adaptations == |b.adaptations|
      && d.stats.createdNew == o.created && d.stats.selfCore == (if HasCore(b) then 1 else 0)
  {
    OpenedHasKey(t.keys, sv.master, q.target);
    o := Open(t.keys, sv.master, q.target).value;
  }

  lemma ImportedFacts(t: Tables, sv: Memories.Services, q: Request)
    requires Imported(t, sv, q).Ok?
    ensures var soul := TargetOf(t, sv, q);
      FactsOf(Imported(t, sv, q).value.tables.facts, soul, true) == MergedFacts(FactsOf(t.facts, soul, true), q.bundle.facts, q.mode)
  {
    var o := Parts(t, sv, q);
    FactsImportIsMerge(t.facts, o.soul, o.dek, q.bundle.facts, q.mode, q.draws.facts, 0);
  }

  lemma ImportedProperties(t: Tables, sv: Memories.Services, q: Request)
    requires Imported(t, sv, q).Ok?
    ensures var Done(t', stats), soul := Imported(t, sv, q).value, TargetOf(t, sv, q);
      && Properties.Live(t'.properties, soul) == MergedProperties(Properties.Live(t.properties, soul), q.bundle.properties, q.mode)
      && stats.properties + stats.skippedProperties == |q.bundle.properties|
  {
    var o := Parts(t, sv, q);
    var b, c := q.bundle, PropertyCount(t.properties, 0, 0);
    PropertiesImportIsMerge(o.keys, sv.master, o.soul, b.properties, q.mode, q.draws.properties, 0, c);
    PropertiesAreCounted(o.keys, sv.master, o.soul, b.properties, q.mode, q.draws.properties, 0, c);
  }

  lemma ImportedAdaptations(t: Tables, sv: Memories.Services, q: Request, all: bool)
    requires Imported(t, sv, q).Ok?
    ensures var soul := TargetOf(t, sv, q);
      KeptAdaptations(Imported(t, sv, q).value.tables.adaptations, soul, all)
      == KeptAdaptations(t.adaptations, soul, all) + AdaptationsBrought(q.bundle.adaptations, all, 0)
  {
    var o := Parts(t, sv, q);
    AdaptationsImportAppends(o.keys, sv.master, t.adaptations, o.soul, q.bundle.adaptations, q.draws.adaptations, q.now, 0, all);
  }

  lemma ImportedMemories(t: Tables, sv: Memories.Services, q: Request, all: bool)
    requires Imported(t, sv, q).Ok?
    ensures var soul := TargetOf(t, sv, q);
      KeptMemories(Imported(t, sv, q).value.tables.memories, soul, all)
      == KeptMemories(t.memories, soul, all) + MemoriesBrought(q.bundle.memories, q.recompute, sv.embed, all, 0)
  {
    var o := Parts(t, sv, q);
    MemoriesImportAppends(o.keys, sv, t.memories, o.soul, q.bundle.memories, q.recompute, q.draws.memories, q.now, 0, all);
  }

  /** Facts and properties are merged, adaptations and memories appended, and everything is counted. */
  lemma MergeEffect(t: Tables, sv: Memories.Services, q: Request, all: bool)
    requires Imported(t, sv, q).Ok?
    ensures var Done(t', stats), soul, b := Imported(t, sv, q).value, TargetOf(t, sv, q), q.bundle;
      && FactsOf(t'.facts, soul, true) == MergedFacts(FactsOf(t.facts, soul, true), b.facts, q.mode)
      && Properties.Live(t'.properties, soul) == MergedProperties(Properties.Live(t.properties, soul), b.properties, q.mode)
      && KeptAdaptations(t'.adaptations, soul, all)
         == KeptAdaptations(t.adaptations, soul, all) + AdaptationsBrought(b.adaptations, all, 0)
      && KeptMemories(t'.memories, soul, all)
         == KeptMemories(t.memories, soul, all) + MemoriesBrought(b.memories, q.recompute, sv.embed, all, 0)
      && stats.properties + stats.skippedProperties == |b.properties|
      && stats.facts == |b.facts| && stats.adaptations == |b.adaptations| && stats.memories == |b.memories|
  {
    var o := Parts(t, sv, q);
    ImportedFacts(t, sv, q);
    ImportedProperties(t, sv, q);
    ImportedAdaptations(t, sv, q, all);
    ImportedMemories(t, sv, q, all);
  }

  /** `after` at `n`: the value of record `j`, or of `before` where no record counts. */
  ghost predicate MergedFactIs(before: map<Facts.FactName, PlainFact>, after: map<Facts.FactName, PlainFact>,
                               s: seq<FactRecord>,
                               mode: Mode, n: Facts.FactName, j: nat) {
    if (forall i :: 0 <= i < |s| ==> s[i].name != n) || (mode.Skip? && n in before) then Merge.SameAt(after, before, n)
    else
      && j < |s| && s[j].name == n && n in after && after[n].value == s[j].value
      && after[n].confidence == (if s[j].confidence.Some? then s[j].confidence.value else 1.0)
      && after[n].status == (if s[j].status.Some? then s[j].status.value else Active)
      && forall i :: 0 <= i < |s| && s[i].name == n ==> if mode.Skip? then j <= i else i <= j
  }

  lemma MergedFactsAt(m: map<Facts.FactName, PlainFact>, s: seq<FactRecord>, mode: Mode, n: Facts.FactName) returns (j: nat)
    ensures MergedFactIs(m, MergedFacts(m, s, mode), s, mode, n, j)
  {
    var e := Ordering.Map(FactEntry, s);
    j := Merge.MergedAt(m, e, mode.Skip?, n);
    assert forall i :: 0 <= i < |s| ==> (Merge.Brings(e[i], n) <==> s[i].name == n);
  }

  /**
    Name by name: `Overwrite` gives the bundle's last value of each fact it names, `Skip` keeps every row there
    is, forgotten ones too.
   */
  lemma MergedFactAt(t: Tables, sv: Memories.Services, q: Request, n: Facts.FactName) returns (j: nat)
    requires Imported(t, sv, q).Ok?
    ensures var soul := TargetOf(t, sv, q);
            MergedFactIs(FactsOf(t.facts, soul, true), FactsOf(Imported(t, sv, q).value.tables.facts, soul, true),
                         q.bundle.facts, q.mode, n, j)
  {
    ImportedFacts(t, sv, q);
    j := MergedFactsAt(FactsOf(t.facts, TargetOf(t, sv, q), true), q.bundle.facts, q.mode, n);
  }

  ghost predicate MergedPropertyIs(before: map<string, Json>, after: map<string, Json>, s: seq<PropertyRecord>, mode: Mode,
                                   p: string, j: nat) {
    if (forall i :: 0 <= i < |s| ==> !(s[i].ptype == p && Accepted(s[i]))) || (mode.Skip? && p in before) then
      Merge.SameAt(after, before, p)
    else
      && j < |s| && s[j].ptype == p && Accepted(s[j]) && p in after && Some(after[p]) == s[j].value
      && forall i :: 0 <= i < |s| && s[i].ptype == p && Accepted(s[i]) ==> if mode.Skip? then j <= i else i <= j
  }

  lemma MergedPropertiesAt(m: map<string, Json>, s: seq<PropertyRecord>, mode: Mode, p: string) returns (j: nat)
    ensures MergedPropertyIs(m, MergedProperties(m, s, mode), s, mode, p, j)
  {
    var e := Ordering.Map(PropertyEntry, s);
    j := Merge.MergedAt(m, e, mode.Skip?, p);
    assert forall i :: 0 <= i < |s| ==> (Merge.Brings(e[i], p) <==> s[i].ptype == p && Accepted(s[i]));
  }

  /** Type by type, for the properties `set_property` accepts; a row that is not active does not count as existing. */
  lemma MergedPropertyAt(t: Tables, sv: Memories.Services, q: Request, p: string) returns (j: nat)
    requires Imported(t, sv, q).Ok?
    ensures var soul := TargetOf(t, sv, q);
            MergedPropertyIs(Properties.Live(t.properties, soul),
                             Properties.Live(Imported(t, sv, q).value.tables.properties, soul),
                             q.bundle.properties, q.mode, p, j)
  {
    ImportedProperties(t, sv, q);
    j := MergedPropertiesAt(Properties.Live(t.properties, TargetOf(t, sv, q)), q.bundle.properties, q.mode, p);
  }

  /** A bundle with content archives the Self Core there is, once, one version up; one without leaves the ledger alone. */
  lemma MergedCore(t: Tables, sv: Memories.Services, q: Request)
    requires Imported(t, sv, q).Ok?
    ensures var l, l', soul := t.ledger, Imported(t, sv, q).value.tables.ledger, TargetOf(t, sv, q);
      && (!HasCore(q.bundle) ==> l' == l)
      && (HasCore(q.bundle) && soul in l.cores ==>
           var row := l.cores[soul];
           && VersionKey(soul, row.version) !in l.history
           && l'.history == l.history[VersionKey(soul, row.version) := HistoryRow(row.content, row.user, Some("import merge"))]
           && soul in l'.cores && l'.cores[soul].version == row.version + 1
           && TextOf(l'.cores[soul].content) == q.bundle.core.content.value)
  {
    var o := Parts(t, sv, q);
  }

  ghost predicate SameArchive(h: map<VersionKey, HistoryRow>, h': map<VersionKey, HistoryRow>, soul: SoulId) {
    forall v :: Merge.SameAt(h', h, VersionKey(soul, v))
  }

  /** Every other soul is left as it was. */
  lemma OthersUntouched(t: Tables, sv: Memories.Services, q: Request, other: SoulId)
    requires Imported(t, sv, q).Ok? && other != TargetOf(t, sv, q)
    ensures var t' := Imported(t, sv, q).value.tables;
      && TableDek(t'.keys, sv.master, other) == TableDek(t.keys, sv.master, other)
      && FactsOf(t'.facts, other, true) == FactsOf(t.facts, other, true)
      && Properties.Live(t'.properties, other) == Properties.Live(t.properties, other)
      && t.adaptations <= t'.adaptations && (forall i :: |t.adaptations| <= i < |t'.adaptations| ==> t'.adaptations[i].soul != other)
      && t.memories <= t'.memories && (forall i :: |t.memories| <= i < |t'.memories| ==> t'.memories[i].soul != other)
      && SelfCore.SameRow(t.ledger, t'.ledger, other)
      && SameArchive(t.ledger.history, t'.ledger.history, other)
  {
    var o := Parts(t, sv, q);
    var b := q.bundle;
    FactsImportElsewhere(t.facts, o.soul, o.dek, b.facts, q.mode, q.draws.facts, 0, other);
    PropertiesImportElsewhere(o.keys, sv.master, o.soul, b.properties, q.mode, q.draws.properties, 0,
                              PropertyCount(t.properties, 0, 0), other);
    AdaptationsImportAppends(o.keys, sv.master, t.adaptations, o.soul, b.adaptations, q.draws.adaptations, q.now, 0, true);
    MemoriesImportAppends(o.keys, sv, t.memories, o.soul, b.memories, q.recompute, q.draws.memories, q.now, 0, true);
    CoreElsewhere(t.ledger, o, q, other);
  }

  lemma CoreElsewhere(l: Ledger, o: Opening, q: Request, other: SoulId)
    requires other != o.soul
    requires SelfCore.Bundle(l, o.soul, q.bundle.core, q.user, o.dek, q.draws.core, q.draws.history).Ok?
    ensures var l' := SelfCore.Bundle(l, o.soul, q.bundle.core, q.user, o.dek, q.draws.core, q.draws.history).value;
      && SelfCore.SameRow(l, l', other)
      && SameArchive(l.history, l'.history, other)
  {
    forall v {
      SelfCore.BroughtKeys(q.bundle.core.history, o.soul, o.dek, q.user, q.draws.history, VersionKey(other, v));
    }
  }

  lemma MergedTwice(m: map<Facts.FactName, PlainFact>, s: seq<FactRecord>, mode: Mode)
    ensures MergedFacts(MergedFacts(m, s, mode), s, mode) == MergedFacts(m, s, mode)
  {
    Merge.MergingTwice(m, Ordering.Map(FactEntry, s), mode.Skip?);
  }

  lemma PropertiesMergedTwice(m: map<string, Json>, s: seq<PropertyRecord>, mode: Mode)
    ensures MergedProperties(MergedProperties(m, s, mode), s, mode) == MergedProperties(m, s, mode)
  {
    Merge.MergingTwice(m, Ordering.Map(PropertyEntry, s), mode.Skip?);
  }

  lemma CoreAfterImport(t: Tables, sv: Memories.Services, q: Request)
    requires Imported(t, sv, q).Ok? && HasCore(q.bundle)
    ensures TargetOf(t, sv, q) in Imported(t, sv, q).value.tables.ledger.cores
  {
    var o := Parts(t, sv, q);
  }

  /** A second merge of a bundle with content is one more version. */
  lemma VersionAfterTwo(t: Tables, sv: Memories.Services, q: Request, q': Request)
    requires Imported(t, sv, q).Ok? && Imported(Imported(t, sv, q).value.tables, sv, q').Ok?
    requires q'.bundle == q.bundle && TargetOf(Imported(t, sv, q).value.tables, sv, q') == TargetOf(t, sv, q)
    ensures var t1, soul := Imported(t, sv, q).value.tables, TargetOf(t, sv, q);
            SelfCore.VersionOf(Imported(t1, sv, q').value.tables.ledger, soul)
            == SelfCore.VersionOf(t1.ledger, soul) + if HasCore(q.bundle) then 1 else 0
  {
    if HasCore(q.bundle) { CoreAfterImport(t, sv, q); }
    MergedCore(Imported(t, sv, q).value.tables, sv, q');
  }

  /**
    Merging a bundle a second time: facts and active properties stay as the first merge left them, while
    the bundle's adaptations and memories come once more.
   */
  lemma MergingTwice(t: Tables, sv: Memories.Services, q: Request, q': Request)
    requires Imported(t, sv, q).Ok? && Imported(Imported(t, sv, q).value.tables, sv, q').Ok?
    requires q'.bundle == q.bundle && q'.mode == q.mode && q'.recompute == q.recompute
    requires TargetOf(Imported(t, sv, q).value.tables, sv, q') == TargetOf(t, sv, q)
    ensures var t1, soul, b := Imported(t, sv, q).value.tables, TargetOf(t, sv, q), q.bundle;
      var t2 := Imported(t1, sv, q').value.tables;
      && FactsOf(t2.facts, soul, true) == FactsOf(t1.facts, soul, true)
      && Properties.Live(t2.properties, soul) == Properties.Live(t1.properties, soul)
      && KeptAdaptations(t2.adaptations, soul, true)
         == KeptAdaptations(t1.adaptations, soul, true) + AdaptationsBrought(b.adaptations, true, 0)
      && KeptMemories(t2.memories, soul, true)
         == KeptMemories(t1.memories, soul, true) + MemoriesBrought(b.memories, q.recompute, sv.embed, true, 0)
  {
    var soul := TargetOf(t, sv, q);
    MergeEffect(t, sv, q, true);
    MergeEffect(Imported(t, sv, q).value.tables, sv, q', true);
    MergedTwice(FactsOf(t.facts, soul, true), q.bundle.facts, q.mode);
    PropertiesMergedTwice(Properties.Live(t.properties, soul), q.bundle.properties, q.mode);
  }

  // ---- an import keeps the tables in order ----

  ghost predicate KeepsKeys(keys: KeyTable, keys': KeyTable, master: Key) {
    forall soul :: TableDek(keys, master, soul) != Err(NoKey) ==> TableDek(keys', master, soul) == TableDek(keys, master, soul)
  }

  lemma NewKeyKeepsHealthy(t: Tables, master: Key, target: Target)
    requires Healthy(t, master) && Open(t.keys, master, target).Ok?
    ensures Healthy(t.(keys := Open(t.keys, master, target).value.keys), master)
  {
    var keys := Open(t.keys, master, target).value.keys;
    assert KeepsKeys(t.keys, keys, master);
    SameKeysSameRows(t, master, keys);
  }

  lemma SameKeysSameRows(t: Tables, master: Key, keys: KeyTable)
    requires Healthy(t, master)
    requires KeepsKeys(t.keys, keys, master)
    ensures Healthy(t.(keys := keys), master)
  {
    assert forall i :: 0 <= i < |t.adaptations| ==>
      Adaptations.RowOk(t.adaptations[i], TableDek(t.keys, master, t.adaptations[i].soul));
    assert forall i :: 0 <= i < |t.memories| ==> Memories.RowOk(t.memories[i], TableDek(t.keys, master, t.memories[i].soul));
  }

  lemma ImportedCoreOk(keys: KeyTable, master: Key, l: Ledger, o: Opening, q: Request)
    requires CoresOk(keys, master, l) && TableDek(keys, master, o.soul) == Ok(o.dek)
    requires SelfCore.Bundle(l, o.soul, q.bundle.core, q.user, o.dek, q.draws.core, q.draws.history).Ok?
    ensures CoresOk(keys, master, SelfCore.Bundle(l, o.soul, q.bundle.core, q.user, o.dek, q.draws.core, q.draws.history).value)
  {
    var h := q.bundle.core.history;
    forall k | k in SelfCore.Brought(h, o.soul, o.dek, q.user, q.draws.history)
      ensures TextSealed(SelfCore.Brought(h, o.soul, o.dek, q.user, q.draws.history)[k].content, Ok(o.dek), o.soul, SelfCoreDomain)
              && k.soul == o.soul
    {
      BroughtSealed(h, o.soul, o.dek, q.user, q.draws.history, k);
    }
  }

  lemma {:induction false} BroughtSealed(h: seq<SelfCore.BundleVersion>, soul: SoulId, dek: Key, user: string,
                                         draw: nat -> Nonce, k: VersionKey)
    requires k in SelfCore.Brought(h, soul, dek, user, draw)
    ensures k.soul == soul && TextSealed(SelfCore.Brought(h, soul, dek, user, draw)[k].content, Ok(dek), soul, SelfCoreDomain)
  {
    var n := |h| - 1;
    if k != VersionKey(soul, h[n].version) {
      BroughtSealed(h[..n], soul, dek, user, draw, k);
    }
  }

  lemma ImportedLedgerInv(l: Ledger, o: Opening, q: Request)
    requires SelfCore.LedgerInv(l)
    requires SelfCore.Bundle(l, o.soul, q.bundle.core, q.user, o.dek, q.draws.core, q.draws.history).Ok?
    ensures SelfCore.LedgerInv(SelfCore.Bundle(l, o.soul, q.bundle.core, q.user, o.dek, q.draws.core, q.draws.history).value)
  {
    if HasCore(q.bundle) {
      var op := SelfCore.BundleImport(o.soul, q.bundle.core, q.user, o.dek, q.draws.core, q.draws.history);
      assert Ok(SelfCore.Write(l, op).0) == SelfCore.Bundle(l, o.soul, q.bundle.core, q.user, o.dek, q.draws.core, q.draws.history);
      forall soul: SoulId ensures SelfCore.SoulInv(SelfCore.Write(l, op).0, soul) {
        SelfCore.WriteKeepsInv(l, op, soul);
      }
    }
  }

  /** After an import every row is still sealed under its own soul's key. */
  lemma ImportKeepsHealthy(t: Tables, sv: Memories.Services, q: Request)
    requires Healthy(t, sv.master) && Imported(t, sv, q).Ok?
    ensures Healthy(Imported(t, sv, q).value.tables, sv.master)
  {
    var o := Parts(t, sv, q);
    var b := q.bundle;
    NewKeyKeepsHealthy(t, sv.master, q.target);
    ImportedCoreOk(o.keys, sv.master, t.ledger, o, q);
    ImportedLedgerInv(t.ledger, o, q);
    FactsImportKeepsOk(o.keys, sv.master, t.facts, o.soul, o.dek, b.facts, q.mode, q.draws.facts, 0);
    PropertiesImportKeepsOk(o.keys, sv.master, o.soul, b.properties, q.mode, q.draws.properties, 0,
                            PropertyCount(t.properties, 0, 0));
    AdaptationsImportKeepsOk(o.keys, sv.master, t.adaptations, o.soul, b.adaptations, q.draws.adaptations, q.now, 0);
    MemoriesImportKeepsOk(o.keys, sv, t.memories, o.soul, b.memories, q.recompute, q.draws.memories, q.now, 0);
  }
}
