/**
  Importing a bundle, as a new soul or into an existing one, in one transaction.

  Each loop of the import is a fold over the bundle's records from position `i` on, written twice: on
  the tables, and on the plain contents the tables stand for. The lemmas connect the two.
 */
module Import {
  import opened Prelude
  import opened Crypto
  import opened Store
  import opened KeyCache
  import opened Export
  import opened Merge
  import opened Ordering
  import SelfCore
  import Facts
  import Properties
  import Adaptations
  import Memories

  datatype Mode = Overwrite | Skip | OtherMode(text: string)

  datatype Draw = Draw(id: nat, nonce: Nonce)

  // ---- facts ----

  function FactRowOf(f: FactRecord, soul: SoulId, dek: Key, d: Draw): FactRow {
    FactRow(d.id, Facts.SealFact(f.value, soul, dek, d.nonce),
            if f.confidence.Some? then f.confidence.value else 1.0,
            if f.status.Some? then f.status.value else Active)
  }

  function FactKeyOf(f: FactRecord, soul: SoulId): FactKey { FactKey(soul, f.name.category, f.name.key) }

  /** INSERT ... ON CONFLICT DO NOTHING: the CHECK constraint comes first. */
  function InsertOrNothing(facts: FactTable, k: FactKey, row: FactRow): Result<FactTable, DbError> {
    if row.status.OtherLiveness? then Err(CheckViolation)
    else if k in facts then Ok(facts)
    else Facts.Upsert(facts, k, row)
  }

  function StoreFact(facts: FactTable, k: FactKey, row: FactRow, mode: Mode): Result<FactTable, DbError> {
    if mode.Skip? then InsertOrNothing(facts, k, row) else Facts.Upsert(facts, k, row)
  }

  function FactsFrom(facts: FactTable, soul: SoulId, dek: Key, s: seq<FactRecord>, mode: Mode, draw: nat -> Draw, i: nat):
    Result<FactTable, DbError>
    requires i <= |s|
    decreases |s| - i
  {
    if i == |s| then Ok(facts)
    else
      match StoreFact(facts, FactKeyOf(s[i], soul), FactRowOf(s[i], soul, dek, draw(i)), mode)
      case Err(e) => Err(e)
      case Ok(facts') => FactsFrom(facts', soul, dek, s, mode, draw, i + 1)
  }

  method ImportFacts(db: Database, soul: SoulId, dek: Key, s: seq<FactRecord>, mode: Mode, draw: nat -> Draw)
    returns (r: Result<nat, DbError>)
    modifies db`facts
    ensures match FactsFrom(old(db.facts), soul, dek, s, mode, draw, 0)
      case Ok(facts) => r == Ok(|s|) && db.facts == facts
      case Err(e) => r == Err(e)
  {
    var count := 0;
    for i := 0 to |s|
      invariant count == i
      invariant FactsFrom(db.facts, soul, dek, s, mode, draw, i) == FactsFrom(old(db.facts), soul, dek, s, mode, draw, 0)
    {
      var stored := StoreFact(db.facts, FactKeyOf(s[i], soul), FactRowOf(s[i], soul, dek, draw(i)), mode);
      if stored.Err? {
        return Err(stored.error);
      }
      db.facts := stored.value;
      count := count + 1;
    }
    return Ok(count);
  }

  // -- on the plain map --

  function PlainOf(f: FactRecord): PlainFact {
    PlainFact(f.value, if f.confidence.Some? then f.confidence.value else 1.0,
              if f.status.Some? then f.status.value else Active)
  }

  function FactEntry(f: FactRecord): Keyed<Facts.FactName, PlainFact> { Keyed(f.name, Some(PlainOf(f))) }

  /** Merging the bundle's facts into plain facts. */
  function MergedFacts(m: map<Facts.FactName, PlainFact>, s: seq<FactRecord>, mode: Mode): map<Facts.FactName, PlainFact> {
    Merged(m, Map(FactEntry, s), mode.Skip?, 0)
  }

  lemma PutFact(facts: FactTable, k: FactKey, row: FactRow, soul: SoulId)
    ensures FactsOf(facts[k := row], soul, true) ==
            if k.soul == soul then FactsOf(facts, soul, true)[Facts.NameOf(k) := PlainFactOf(row)] else FactsOf(facts, soul, true)
  {
    var facts' := facts[k := row];
    forall n
      ensures n in FactsOf(facts', soul, true) <==> k == FactKey(soul, n.category, n.key) || n in FactsOf(facts, soul, true)
      ensures n in FactsOf(facts', soul, true) ==>
        FactsOf(facts', soul, true)[n]
        == if k == FactKey(soul, n.category, n.key) then PlainFactOf(row) else FactsOf(facts, soul, true)[n]
    {
      FactsOfAt(facts, soul, true, n);
      FactsOfAt(facts', soul, true, n);
    }
    assert FactKey(k.soul, Facts.NameOf(k).category, Facts.NameOf(k).key) == k;
  }

  /** One step: the table's new row has the record's contents. */
  lemma StoredFact(facts: FactTable, f: FactRecord, soul: SoulId, dek: Key, d: Draw, mode: Mode)
    requires StoreFact(facts, FactKeyOf(f, soul), FactRowOf(f, soul, dek, d), mode).Ok?
    ensures FactsOf(StoreFact(facts, FactKeyOf(f, soul), FactRowOf(f, soul, dek, d), mode).value, soul, true)
         == Put(FactsOf(facts, soul, true), FactEntry(f), mode.Skip?)
  {
    var k, row := FactKeyOf(f, soul), FactRowOf(f, soul, dek, d);
    FactsOfAt(facts, soul, true, f.name);
    if !(mode.Skip? && k in facts) {
      var kept := if k in facts then row.(id := facts[k].id) else row;
      PutFact(facts, k, kept, soul);
      assert PlainFactOf(kept) == PlainOf(f);
    }
  }

  lemma StoredFactElsewhere(facts: FactTable, k: FactKey, row: FactRow, mode: Mode, other: SoulId)
    requires StoreFact(facts, k, row, mode).Ok? && other != k.soul
    ensures FactsOf(StoreFact(facts, k, row, mode).value, other, true) == FactsOf(facts, other, true)
  {
    if !(mode.Skip? && k in facts) {
      PutFact(facts, k, if k in facts then row.(id := facts[k].id) else row, other);
    }
  }

  lemma FactsNext(facts: FactTable, soul: SoulId, dek: Key, s: seq<FactRecord>, mode: Mode, draw: nat -> Draw, i: nat)
    requires i < |s| && FactsFrom(facts, soul, dek, s, mode, draw, i).Ok?
    ensures var stored := StoreFact(facts, FactKeyOf(s[i], soul), FactRowOf(s[i], soul, dek, draw(i)), mode);
            stored.Ok? && FactsFrom(facts, soul, dek, s, mode, draw, i) == FactsFrom(stored.value, soul, dek, s, mode, draw, i + 1)
  {
  }

  lemma NoFactsLeft(facts: FactTable, soul: SoulId, dek: Key, s: seq<FactRecord>, mode: Mode, draw: nat -> Draw)
    ensures FactsFrom(facts, soul, dek, s, mode, draw, |s|) == Ok(facts)
    ensures Merged(FactsOf(facts, soul, true), Map(FactEntry, s), mode.Skip?, |s|) == FactsOf(facts, soul, true)
  {
  }

  /** Importing facts into the table is merging them into the soul's plain facts. */
  lemma {:induction false} FactsImportIsMerge(facts: FactTable, soul: SoulId, dek: Key, s: seq<FactRecord>, mode: Mode,
                                              draw: nat -> Draw, i: nat)
    requires i <= |s| && FactsFrom(facts, soul, dek, s, mode, draw, i).Ok?
    ensures FactsOf(FactsFrom(facts, soul, dek, s, mode, draw, i).value, soul, true)
         == Merged(FactsOf(facts, soul, true), Map(FactEntry, s), mode.Skip?, i)
    decreases |s| - i
  {
    if i == |s| {
      NoFactsLeft(facts, soul, dek, s, mode, draw);
    } else {
      FactsNext(facts, soul, dek, s, mode, draw, i);
      StoredFact(facts, s[i], soul, dek, draw(i), mode);
      var facts' := StoreFact(facts, FactKeyOf(s[i], soul), FactRowOf(s[i], soul, dek, draw(i)), mode).value;
      FactsImportIsMerge(facts', soul, dek, s, mode, draw, i + 1);
      MergedNext(FactsOf(facts, soul, true), Map(FactEntry, s), mode.Skip?, i);
    }
  }

  lemma {:induction false} FactsImportElsewhere(facts: FactTable, soul: SoulId, dek: Key, s: seq<FactRecord>, mode: Mode,
                                                draw: nat -> Draw, i: nat, other: SoulId)
    requires i <= |s| && FactsFrom(facts, soul, dek, s, mode, draw, i).Ok? && other != soul
    ensures FactsOf(FactsFrom(facts, soul, dek, s, mode, draw, i).value, other, true) == FactsOf(facts, other, true)
    decreases |s| - i
  {
    if i < |s| {
      var k, row := FactKeyOf(s[i], soul), FactRowOf(s[i], soul, dek, draw(i));
      StoredFactElsewhere(facts, k, row, mode, other);
      FactsImportElsewhere(StoreFact(facts, k, row, mode).value, soul, dek, s, mode, draw, i + 1, other);
    }
  }

  // -- rows stay in order --

  lemma {:induction false} FactsImportKeepsOk(keys: KeyTable, master: Key, facts: FactTable, soul: SoulId, dek: Key,
                                              s: seq<FactRecord>,
                                              mode: Mode, draw: nat -> Draw, i: nat)
    requires i <= |s| && FactsFrom(facts, soul, dek, s, mode, draw, i).Ok?
    requires Facts.FactsOk(keys, master, facts) && TableDek(keys, master, soul) == Ok(dek)
    ensures Facts.FactsOk(keys, master, FactsFrom(facts, soul, dek, s, mode, draw, i).value)
    decreases |s| - i
  {
    if i < |s| {
      var k, row := FactKeyOf(s[i], soul), FactRowOf(s[i], soul, dek, draw(i));
      var facts' := StoreFact(facts, k, row, mode).value;
      if !(mode.Skip? && k in facts) {
        Facts.UpsertKeepsOk(keys, master, facts, k, row);
      }
      FactsImportKeepsOk(keys, master, facts', soul, dek, s, mode, draw, i + 1);
    }
  }

  // ---- properties ----

  datatype PropertyCount = PropertyCount(table: PropertyTable, stored: nat, skipped: nat)

  /**
    One property: skipped when its type is not registered, when `Skip` finds an active row, or when
    `set_property` refuses it.
   */
  function StoreProperty(keys: KeyTable, master: Key, props: PropertyTable, soul: SoulId, p: PropertyRecord,
                         mode: Mode, nonce: Nonce):
    (PropertyTable, bool)
  {
    var k := PropertyKey(soul, p.ptype);
    if Properties.SchemaOf(p.ptype).None? then (props, false)
    else if mode.Skip? && Properties.IsActive(props, k) then (props, false)
    else
      var (props', r) := Properties.Apply(keys, master, props, Properties.Set(k, p.value, nonce));
      (props', r.Pass?)
  }

  function CountProperty(keys: KeyTable, master: Key, c: PropertyCount, soul: SoulId, p: PropertyRecord, mode: Mode,
                         nonce: Nonce):
    PropertyCount
  {
    var (props', stored) := StoreProperty(keys, master, c.table, soul, p, mode, nonce);
    if stored then PropertyCount(props', c.stored + 1, c.skipped) else PropertyCount(props', c.stored, c.skipped + 1)
  }

  function PropertiesFrom(keys: KeyTable, master: Key, soul: SoulId, s: seq<PropertyRecord>, mode: Mode, draw: nat -> Nonce,
                          i: nat, c: PropertyCount): PropertyCount
    requires i <= |s|
    decreases |s| - i
  {
    if i == |s| then c
    else PropertiesFrom(keys, master, soul, s, mode, draw, i + 1, CountProperty(keys, master, c, soul, s[i], mode, draw(i)))
  }

  method ImportProperties(db: Database, master: Key, soul: SoulId, s: seq<PropertyRecord>, mode: Mode, draw: nat -> Nonce)
    returns (stored: nat, skipped: nat)
    modifies db`properties
    ensures PropertyCount(db.properties, stored, skipped)
         == PropertiesFrom(db.keys, master, soul, s, mode, draw, 0, PropertyCount(old(db.properties), 0, 0))
  {
    stored, skipped := 0, 0;
    for i := 0 to |s|
      invariant PropertiesFrom(db.keys, master, soul, s, mode, draw, i, PropertyCount(db.properties, stored, skipped))
             == PropertiesFrom(db.keys, master, soul, s, mode, draw, 0, PropertyCount(old(db.properties), 0, 0))
    {
      var k := PropertyKey(soul, s[i].ptype);
      if Properties.SchemaOf(s[i].ptype).None? {
        skipped := skipped + 1;
        continue;
      }
      if mode.Skip? && k in db.properties && db.properties[k].status.Active? {
        skipped := skipped + 1;
        continue;
      }
      var reply := Properties.SetProperty(db, master, k, s[i].value, draw(i));
      if reply.Fail? {
        skipped := skipped + 1;
      } else {
        stored := stored + 1;
      }
    }
  }

  /** Every property of the bundle is counted once, stored or skipped. */
  lemma {:induction false} PropertiesAreCounted(keys: KeyTable, master: Key, soul: SoulId, s: seq<PropertyRecord>, mode: Mode,
                                                draw: nat -> Nonce, i: nat, c: PropertyCount)
    requires i <= |s|
    ensures var r := PropertiesFrom(keys, master, soul, s, mode, draw, i, c); r.stored + r.skipped == c.stored + c.skipped + |s| - i
    decreases |s| - i
  {
    if i < |s| {
      PropertiesAreCounted(keys, master, soul, s, mode, draw, i + 1, CountProperty(keys, master, c, soul, s[i], mode, draw(i)));
    }
  }

  // -- on the plain map --

  /** What `set_property` accepts, when the soul has a key. */
  predicate Accepted(p: PropertyRecord) {
    && Properties.IsPropertyType(p.ptype) && Properties.SchemaOf(p.ptype).Some?
    && Properties.Validate(Properties.SchemaOf(p.ptype).value, p.value).Pass?
  }

  function PropertyEntry(p: PropertyRecord): Keyed<string, Json> { Keyed(p.ptype, if Accepted(p) then p.value else None) }

  /** Merging the bundle's properties into the active ones. */
  function MergedProperties(m: map<string, Json>, s: seq<PropertyRecord>, mode: Mode): map<string, Json> {
    Merged(m, Map(PropertyEntry, s), mode.Skip?, 0)
  }

  lemma AcceptedIsWritten(keys: KeyTable, master: Key, k: PropertyKey, p: PropertyRecord, nonce: Nonce)
    requires TableDek(keys, master, k.soul).Ok? && k.ptype == p.ptype
    ensures Properties.Written(keys, master, k, p.value, nonce).Ok? <==> Accepted(p)
  {
  }

  lemma StoredProperty(keys: KeyTable, master: Key, props: PropertyTable, soul: SoulId, p: PropertyRecord,
                       mode: Mode, nonce: Nonce)
    requires TableDek(keys, master, soul).Ok?
    ensures Properties.Live(StoreProperty(keys, master, props, soul, p, mode, nonce).0, soul)
         == Put(Properties.Live(props, soul), PropertyEntry(p), mode.Skip?)
  {
    var k := PropertyKey(soul, p.ptype);
    Properties.LiveAt(props, soul, p.ptype);
    AcceptedIsWritten(keys, master, k, p, nonce);
    if Accepted(p) {
      Properties.ApplyRefines(keys, master, props, Properties.Set(k, p.value, nonce), soul);
    }
  }

  lemma StoredPropertyElsewhere(keys: KeyTable, master: Key, props: PropertyTable, soul: SoulId, p: PropertyRecord, mode: Mode,
                                nonce: Nonce, other: SoulId)
    requires other != soul
    ensures Properties.Live(StoreProperty(keys, master, props, soul, p, mode, nonce).0, other) == Properties.Live(props, other)
  {
    Properties.ApplyRefines(keys, master, props, Properties.Set(PropertyKey(soul, p.ptype), p.value, nonce), other);
  }

  lemma CountedProperty(keys: KeyTable, master: Key, c: PropertyCount, soul: SoulId, p: PropertyRecord, mode: Mode,
                        nonce: Nonce)
    requires TableDek(keys, master, soul).Ok?
    ensures Properties.Live(CountProperty(keys, master, c, soul, p, mode, nonce).table, soul)
         == Put(Properties.Live(c.table, soul), PropertyEntry(p), mode.Skip?)
  {
    StoredProperty(keys, master, c.table, soul, p, mode, nonce);
  }

  lemma CountedPropertyElsewhere(keys: KeyTable, master: Key, c: PropertyCount, soul: SoulId, p: PropertyRecord, mode: Mode,
                                 nonce: Nonce, other: SoulId)
    requires other != soul
    ensures Properties.Live(CountProperty(keys, master, c, soul, p, mode, nonce).table, other) == Properties.Live(c.table, other)
  {
    StoredPropertyElsewhere(keys, master, c.table, soul, p, mode, nonce, other);
  }

  lemma CountedNext(keys: KeyTable, master: Key, soul: SoulId, s: seq<PropertyRecord>, mode: Mode, draw: nat -> Nonce,
                    i: nat, c: PropertyCount)
    requires i < |s|
    ensures PropertiesFrom(keys, master, soul, s, mode, draw, i, c)
         == PropertiesFrom(keys, master, soul, s, mode, draw, i + 1, CountProperty(keys, master, c, soul, s[i], mode, draw(i)))
  {
  }

  lemma CountedAll(keys: KeyTable, master: Key, soul: SoulId, s: seq<PropertyRecord>, mode: Mode, draw: nat -> Nonce,
                   c: PropertyCount)
    ensures PropertiesFrom(keys, master, soul, s, mode, draw, |s|, c) == c
    ensures Merged(Properties.Live(c.table, soul), Map(PropertyEntry, s), mode.Skip?, |s|) == Properties.Live(c.table, soul)
  {
  }

  /** Importing properties into the table is merging them into the soul's active properties. */
  lemma {:induction false} PropertiesImportIsMerge(keys: KeyTable, master: Key, soul: SoulId, s: seq<PropertyRecord>,
                                                   mode: Mode,
                                                   draw: nat -> Nonce, i: nat, c: PropertyCount)
    requires i <= |s| && TableDek(keys, master, soul).Ok?
    ensures Properties.Live(PropertiesFrom(keys, master, soul, s, mode, draw, i, c).table, soul)
         == Merged(Properties.Live(c.table, soul), Map(PropertyEntry, s), mode.Skip?, i)
    decreases |s| - i
  {
    if i == |s| {
      CountedAll(keys, master, soul, s, mode, draw, c);
    } else {
      var c' := CountProperty(keys, master, c, soul, s[i], mode, draw(i));
      CountedProperty(keys, master, c, soul, s[i], mode, draw(i));
      CountedNext(keys, master, soul, s, mode, draw, i, c);
      PropertiesImportIsMerge(keys, master, soul, s, mode, draw, i + 1, c');
      MergedNext(Properties.Live(c.table, soul), Map(PropertyEntry, s), mode.Skip?, i);
    }
  }

  lemma {:induction false} PropertiesImportElsewhere(keys: KeyTable, master: Key, soul: SoulId,
                                                     s: seq<PropertyRecord>, mode: Mode,
                                                     draw: nat -> Nonce, i: nat, c: PropertyCount, other: SoulId)
    requires i <= |s| && other != soul
    ensures Properties.Live(PropertiesFrom(keys, master, soul, s, mode, draw, i, c).table, other) == Properties.Live(c.table, other)
    decreases |s| - i
  {
    if i < |s| {
      CountedPropertyElsewhere(keys, master, c, soul, s[i], mode, draw(i), other);
      PropertiesImportElsewhere(keys, master, soul, s, mode, draw, i + 1,
                                CountProperty(keys, master, c, soul, s[i], mode, draw(i)), other);
    }
  }

  lemma {:induction false} PropertiesImportKeepsOk(keys: KeyTable, master: Key, soul: SoulId, s: seq<PropertyRecord>,
                                                   mode: Mode,
                                                   draw: nat -> Nonce, i: nat, c: PropertyCount)
    requires i <= |s| && Properties.PropertiesOk(keys, master, c.table)
    ensures Properties.PropertiesOk(keys, master, PropertiesFrom(keys, master, soul, s, mode, draw, i, c).table)
    decreases |s| - i
  {
    if i < |s| {
      Properties.ApplyKeepsOk(keys, master, c.table, Properties.Set(PropertyKey(soul, s[i].ptype), s[i].value, draw(i)));
      PropertiesImportKeepsOk(keys, master, soul, s, mode, draw, i + 1,
                              CountProperty(keys, master, c, soul, s[i], mode, draw(i)));
    }
  }

  // ---- adaptations ----

  function AdaptationOp(a: AdaptationRecord, soul: SoulId, d: Draw, now: Time): Adaptations.Op {
    Adaptations.Import(soul, a.category, a.content, if a.confidence.Some? then a.confidence.value else 0.5, a.source,
                       if a.status.Some? then a.status.value else Current, d.id, d.nonce, now)
  }

  function AdaptationsFrom(keys: KeyTable, master: Key, t: AdaptationTable, soul: SoulId, s: seq<AdaptationRecord>,
                           draw: nat -> Draw, now: Time, i: nat): Result<AdaptationTable, Adaptations.AdaptationError>
    requires i <= |s|
    decreases |s| - i
  {
    if i == |s| then Ok(t)
    else
      var (t', r) := Adaptations.Apply(keys, master, t, AdaptationOp(s[i], soul, draw(i), now));
      if r.Fail? then Err(r.error) else AdaptationsFrom(keys, master, t', soul, s, draw, now, i + 1)
  }

  method ImportAdaptations(db: Database, master: Key, soul: SoulId, dek: Key, s: seq<AdaptationRecord>,
                           draw: nat -> Draw, now: Time)
    returns (r: Result<nat, Adaptations.AdaptationError>)
    requires TableDek(db.keys, master, soul) == Ok(dek)
    modifies db`adaptations
    ensures match AdaptationsFrom(db.keys, master, old(db.adaptations), soul, s, draw, now, 0)
      case Ok(t) => r == Ok(|s|) && db.adaptations == t
      case Err(e) => r == Err(e)
  {
    var count := 0;
    for i := 0 to |s|
      invariant count == i
      invariant AdaptationsFrom(db.keys, master, db.adaptations, soul, s, draw, now, i)
             == AdaptationsFrom(db.keys, master, old(db.adaptations), soul, s, draw, now, 0)
    {
      var d, op := draw(i), AdaptationOp(s[i], soul, draw(i), now);
      var sealed := Adaptations.SealAdaptation(s[i].content, soul, dek, d.nonce);
      var inserted := Adaptations.InsertAdaptation(db,
        AdaptationRow(d.id, soul, s[i].category, sealed, op.confidence, s[i].source, now, None, op.status));
      if inserted.Fail? {
        return Err(Adaptations.Database(inserted.error));
      }
      count := count + 1;
    }
    return Ok(count);
  }

  /** What an import keeps of a record, its defaults filled in. */
  function NormalAdaptation(a: AdaptationRecord): AdaptationRecord {
    a.(confidence := Some(if a.confidence.Some? then a.confidence.value else 0.5),
       status := Some(if a.status.Some? then a.status.value else Current), createdAt := None)
  }

  /** What of an exported record survives an import: all but the time. */
  function KeptAdaptation(a: AdaptationRecord): AdaptationRecord { a.(createdAt := None) }

  function AdaptationsBrought(s: seq<AdaptationRecord>, all: bool, i: nat): seq<AdaptationRecord>
    requires i <= |s|
    decreases |s| - i
  {
    if i == |s| then []
    else
      (if all || NormalAdaptation(s[i]).status.value.Current? then [NormalAdaptation(s[i])] else [])
      + AdaptationsBrought(s, all, i + 1)
  }

  function KeptAdaptations(t: AdaptationTable, soul: SoulId, all: bool): seq<AdaptationRecord> {
    Map(KeptAdaptation, AdaptationsOf(t, soul, all))
  }

  lemma AdaptationsSnoc(t: AdaptationTable, row: AdaptationRow, soul: SoulId, all: bool)
    ensures KeptAdaptations(t + [row], soul, all) == KeptAdaptations(t, soul, all)
            + if AdaptationWanted(row, soul, all) then [KeptAdaptation(AdaptationRecordOf(row))] else []
  {
    assert (t + [row])[..|t|] == t;
  }

  lemma AdaptationApplied(keys: KeyTable, master: Key, t: AdaptationTable, soul: SoulId, a: AdaptationRecord,
                          d: Draw, now: Time)
    returns (row: AdaptationRow)
    requires Adaptations.Apply(keys, master, t, AdaptationOp(a, soul, d, now)).1.Pass?
    ensures Adaptations.Apply(keys, master, t, AdaptationOp(a, soul, d, now)).0 == t + [row]
    ensures row.soul == soul && row.createdAt == now && KeptAdaptation(AdaptationRecordOf(row)) == NormalAdaptation(a)
    ensures AdaptationRecordOf(row).status == Some(row.status)
  {
    row := Adaptations.NewRow(keys, master, t, AdaptationOp(a, soul, d, now)).value;
  }

  lemma Shift<T>(a: seq<T>, b: seq<T>, c: seq<T>)
    ensures (a + b) + c == a + (b + c)
  {
  }

  /** The soul gains exactly the bundle's adaptations, in order, and no other row changes. */
  lemma {:induction false} AdaptationsImportAppends(keys: KeyTable, master: Key, t: AdaptationTable, soul: SoulId,
                                                    s: seq<AdaptationRecord>, draw: nat -> Draw, now: Time, i: nat, all: bool)
    requires i <= |s| && AdaptationsFrom(keys, master, t, soul, s, draw, now, i).Ok?
    ensures var t' := AdaptationsFrom(keys, master, t, soul, s, draw, now, i).value;
            && KeptAdaptations(t', soul, all) == KeptAdaptations(t, soul, all) + AdaptationsBrought(s, all, i)
            && t <= t' && forall j :: |t| <= j < |t'| ==> t'[j].soul == soul && t'[j].createdAt == now
    decreases |s| - i
  {
    if i == |s| {
      assert KeptAdaptations(t, soul, all) + [] == KeptAdaptations(t, soul, all);
    } else {
      var row := AdaptationApplied(keys, master, t, soul, s[i], draw(i), now);
      AdaptationsSnoc(t, row, soul, all);
      AdaptationsImportAppends(keys, master, t + [row], soul, s, draw, now, i + 1, all);
      Shift(KeptAdaptations(t, soul, all),
            if all || NormalAdaptation(s[i]).status.value.Current? then [NormalAdaptation(s[i])] else [],
            AdaptationsBrought(s, all, i + 1));
    }
  }

  lemma {:induction false} AdaptationsImportKeepsOk(keys: KeyTable, master: Key, t: AdaptationTable, soul: SoulId,
                                                    s: seq<AdaptationRecord>, draw: nat -> Draw, now: Time, i: nat)
    requires i <= |s| && AdaptationsFrom(keys, master, t, soul, s, draw, now, i).Ok?
    ensures var t' := AdaptationsFrom(keys, master, t, soul, s, draw, now, i).value;
            && (Adaptations.RowsOk(keys, master, t) ==> Adaptations.RowsOk(keys, master, t'))
            && (Adaptations.Lineages(t) ==> Adaptations.Lineages(t'))
    decreases |s| - i
  {
    if i < |s| {
      var op := AdaptationOp(s[i], soul, draw(i), now);
      if Adaptations.RowsOk(keys, master, t) { Adaptations.ApplyKeepsRowsOk(keys, master, t, op); }
      if Adaptations.Lineages(t) { Adaptations.ApplyKeepsLineages(keys, master, t, op); }
      AdaptationsImportKeepsOk(keys, master, Adaptations.Apply(keys, master, t, op).0, soul, s, draw, now, i + 1);
    }
  }

  // ---- memories ----

  /** The bundle's vector, unless it is missing, of the wrong size or to be computed again. */
  function EmbeddingFor(m: MemoryRecord, recompute: bool, embed: string -> seq<real>): seq<real> {
    if recompute || m.embedding == [] || |m.embedding| != EMBEDDING_DIM then embed(m.content) else m.embedding
  }

  function MemoryOp(m: MemoryRecord, soul: SoulId, recompute: bool, embed: string -> seq<real>, d: Draw,
                    now: Time): Memories.Op {
    Memories.Import(soul, m.content, if m.status.Some? then m.status.value else Confirmed, m.tags, m.flags,
                    if m.salience.Some? then m.salience.value else 0.5, m.client, EmbeddingFor(m, recompute, embed),
                    d.id, d.nonce, now)
  }

  function MemoriesFrom(keys: KeyTable, sv: Memories.Services, t: MemoryTable, soul: SoulId, s: seq<MemoryRecord>,
                        recompute: bool, draw: nat -> Draw, now: Time, i: nat): Result<MemoryTable, Memories.MemoryError>
    requires i <= |s|
    decreases |s| - i
  {
    if i == |s| then Ok(t)
    else
      var (t', r) := Memories.Apply(keys, sv, t, MemoryOp(s[i], soul, recompute, sv.embed, draw(i), now));
      if r.Fail? then Err(r.error) else MemoriesFrom(keys, sv, t', soul, s, recompute, draw, now, i + 1)
  }

  method ImportMemories(db: Database, sv: Memories.Services, soul: SoulId, dek: Key, s: seq<MemoryRecord>, recompute: bool,
                        draw: nat -> Draw, now: Time) returns (r: Result<nat, Memories.MemoryError>)
    requires TableDek(db.keys, sv.master, soul) == Ok(dek)
    modifies db`memories
    ensures match MemoriesFrom(db.keys, sv, old(db.memories), soul, s, recompute, draw, now, 0)
      case Ok(t) => r == Ok(|s|) && db.memories == t
      case Err(e) => r == Err(e)
  {
    var count := 0;
    for i := 0 to |s|
      invariant count == i
      invariant MemoriesFrom(db.keys, sv, db.memories, soul, s, recompute, draw, now, i)
             == MemoriesFrom(db.keys, sv, old(db.memories), soul, s, recompute, draw, now, 0)
    {
      var d, op := draw(i), MemoryOp(s[i], soul, recompute, sv.embed, draw(i), now);
      var sealed := Memories.SealMemory(s[i].content, soul, dek, d.nonce);
      var inserted := Memories.InsertMemory(db,
        MemoryRow(d.id, soul, sealed, op.embedding, now, None, 0, s[i].client, op.salience, op.status, s[i].tags, s[i].flags));
      if inserted.Fail? {
        return Err(Memories.Database(inserted.error));
      }
      count := count + 1;
    }
    return Ok(count);
  }

  function NormalMemory(m: MemoryRecord, recompute: bool, embed: string -> seq<real>): MemoryRecord {
    m.(salience := Some(if m.salience.Some? then m.salience.value else 0.5),
       status := Some(if m.status.Some? then m.status.value else Confirmed),
       embedding := EmbeddingFor(m, recompute, embed), createdAt := None, lastRecalledAt := None, recallCount := 0)
  }

  /** What of an exported record survives an import: all but the times and the recall count. */
  function KeptMemory(m: MemoryRecord): MemoryRecord { m.(createdAt := None, lastRecalledAt := None, recallCount := 0) }

  function MemoriesBrought(s: seq<MemoryRecord>, recompute: bool, embed: string -> seq<real>, all: bool,
                           i: nat): seq<MemoryRecord>
    requires i <= |s|
    decreases |s| - i
  {
    if i == |s| then []
    else
      var m := NormalMemory(s[i], recompute, embed);
      (if all || m.status.value.Confirmed? || m.status.value.Pending? then [m] else [])
      + MemoriesBrought(s, recompute, embed, all, i + 1)
  }

  function KeptMemories(t: MemoryTable, soul: SoulId, all: bool): seq<MemoryRecord> {
    Map(KeptMemory, MemoriesOf(t, soul, all))
  }

  predicate NewlyStored(row: MemoryRow, now: Time) {
    row.createdAt == now && row.lastRecalledAt == None && row.recallCount == 0
  }

  lemma MemoriesSnoc(t: MemoryTable, row: MemoryRow, soul: SoulId, all: bool)
    ensures KeptMemories(t + [row], soul, all) == KeptMemories(t, soul, all)
            + if MemoryWanted(row, soul, all) then [KeptMemory(MemoryRecordOf(row))] else []
  {
    assert (t + [row])[..|t|] == t;
  }

  lemma MemoryApplied(keys: KeyTable, sv: Memories.Services, t: MemoryTable, soul: SoulId, m: MemoryRecord, recompute: bool,
                      d: Draw, now: Time) returns (row: MemoryRow)
    requires Memories.Apply(keys, sv, t, MemoryOp(m, soul, recompute, sv.embed, d, now)).1.Pass?
    ensures Memories.Apply(keys, sv, t, MemoryOp(m, soul, recompute, sv.embed, d, now)).0 == t + [row]
    ensures row.soul == soul && NewlyStored(row, now) && KeptMemory(MemoryRecordOf(row)) == NormalMemory(m, recompute, sv.embed)
    ensures MemoryRecordOf(row).status == Some(row.status)
  {
    row := Memories.Imported(keys, sv, MemoryOp(m, soul, recompute, sv.embed, d, now)).value;
  }

  /** The soul gains exactly the bundle's memories, in order, and no other row changes. */
  lemma {:induction false} MemoriesImportAppends(keys: KeyTable, sv: Memories.Services, t: MemoryTable, soul: SoulId,
                                                 s: seq<MemoryRecord>, recompute: bool, draw: nat -> Draw, now: Time,
                                                 i: nat, all: bool)
    requires i <= |s| && MemoriesFrom(keys, sv, t, soul, s, recompute, draw, now, i).Ok?
    ensures var t' := MemoriesFrom(keys, sv, t, soul, s, recompute, draw, now, i).value;
            && KeptMemories(t', soul, all) == KeptMemories(t, soul, all) + MemoriesBrought(s, recompute, sv.embed, all, i)
            && t <= t' && forall j :: |t| <= j < |t'| ==> t'[j].soul == soul && NewlyStored(t'[j], now)
    decreases |s| - i
  {
    if i == |s| {
      assert KeptMemories(t, soul, all) + [] == KeptMemories(t, soul, all);
    } else {
      var row := MemoryApplied(keys, sv, t, soul, s[i], recompute, draw(i), now);
      MemoriesSnoc(t, row, soul, all);
      MemoriesImportAppends(keys, sv, t + [row], soul, s, recompute, draw, now, i + 1, all);
      var m := NormalMemory(s[i], recompute, sv.embed);
      Shift(KeptMemories(t, soul, all), if all || m.status.value.Confirmed? || m.status.value.Pending? then [m] else [],
            MemoriesBrought(s, recompute, sv.embed, all, i + 1));
    }
  }

  lemma {:induction false} MemoriesImportKeepsOk(keys: KeyTable, sv: Memories.Services, t: MemoryTable, soul: SoulId,
                                                 s: seq<MemoryRecord>, recompute: bool, draw: nat -> Draw, now: Time, i: nat)
    requires i <= |s| && MemoriesFrom(keys, sv, t, soul, s, recompute, draw, now, i).Ok?
    requires Memories.RowsOk(keys, sv.master, t)
    ensures Memories.RowsOk(keys, sv.master, MemoriesFrom(keys, sv, t, soul, s, recompute, draw, now, i).value)
    decreases |s| - i
  {
    if i < |s| {
      var op := MemoryOp(s[i], soul, recompute, sv.embed, draw(i), now);
      Memories.ApplyKeepsRowsOk(keys, sv, t, op);
      MemoriesImportKeepsOk(keys, sv, Memories.Apply(keys, sv, t, op).0, soul, s, recompute, draw, now, i + 1);
    }
  }
}
