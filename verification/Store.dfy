/**
  The tables. UNIQUE and PRIMARY KEY constraints are the keys of the maps; the statements that can
  violate them test for the violation and abort. A soul belongs to one tenant, so the tenant column
  is not repeated in the keys.
 */
module Store {
  import opened Prelude
  import opened Crypto

  type Time = real

  datatype DbError = UniqueViolation | CheckViolation | WrongDimension

  // soul_self_cores, keyed by soul
  datatype CoreRow = CoreRow(content: Sealed, version: int, user: string)

  // soul_self_core_history, keyed by (soul, version)
  datatype HistoryRow = HistoryRow(content: Sealed, user: string, note: Option<string>)

  datatype VersionKey = VersionKey(soul: SoulId, version: int)

  datatype Ledger = Ledger(cores: map<SoulId, CoreRow>, history: map<VersionKey, HistoryRow>)

  // facts, keyed by (soul, category, key)
  datatype FactKey = FactKey(soul: SoulId, category: string, key: string)

  datatype Liveness = Active | Deleted | OtherLiveness(text: string)

  datatype FactRow = FactRow(id: nat, value: Sealed, confidence: real, status: Liveness)

  type FactTable = map<FactKey, FactRow>

  // soul_properties, keyed by (soul, property_type)
  datatype PropertyKey = PropertyKey(soul: SoulId, ptype: string)

  datatype PropertyRow = PropertyRow(
    version: int, value: Json, sensitive: bool, secret: Option<Sealed>, status: Liveness)

  type PropertyTable = map<PropertyKey, PropertyRow>

  // soul_adaptations, in insertion order
  datatype Category =
    RelationshipDepth | TopicStance | BehavioralRefinement | SharedReference | EmotionalCalibration
    | OtherCategory(text: string)

  datatype Lifecycle = Current | Superseded | Dismissed | OtherLifecycle(text: string)

  datatype AdaptationRow = AdaptationRow(
    id: nat, soul: SoulId, category: Category, content: Sealed, confidence: real,
    source: Option<string>, createdAt: Time, supersededBy: Option<nat>, status: Lifecycle)

  type AdaptationTable = seq<AdaptationRow>

  // memories, in insertion order; a vector column holds vectors of its declared dimension only
  const EMBEDDING_DIM := 1024

  // the status column has no CHECK: any other text can stand in it
  type OtherText = s: string | s != "pending" && s != "confirmed" && s != "rejected" && s != "forgotten" witness "other"

  datatype MemoryStatus = Pending | Confirmed | Rejected | Forgotten | OtherStatus(text: OtherText)

  datatype MemoryRow = MemoryRow(
    id: nat, soul: SoulId, content: Sealed, embedding: seq<real>, createdAt: Time,
    lastRecalledAt: Option<Time>, recallCount: nat, client: Option<string>, salience: real,
    status: MemoryStatus, tags: seq<string>, flags: seq<string>)

  type MemoryTable = seq<MemoryRow>

  // soul_keys, keyed by soul
  type KeyTable = map<SoulId, WrappedDek>

  datatype Tables = Tables(
    keys: KeyTable, ledger: Ledger, facts: FactTable, properties: PropertyTable,
    adaptations: AdaptationTable, memories: MemoryTable)

  /** The database behind a session. */
  class Database {
    var keys: KeyTable
    var cores: map<SoulId, CoreRow>
    var history: map<VersionKey, HistoryRow>
    var facts: FactTable
    var properties: PropertyTable
    var adaptations: AdaptationTable
    var memories: MemoryTable

    constructor ()
      ensures Contents() == Tables(map[], Ledger(map[], map[]), map[], map[], [], [])
    {
      keys, cores, history := map[], map[], map[];
      facts, properties, adaptations, memories := map[], map[], [], [];
    }

    function CoreLedger(): Ledger
      reads this`cores, this`history
    {
      Ledger(cores, history)
    }

    function Contents(): Tables
      reads this
    {
      Tables(keys, CoreLedger(), facts, properties, adaptations, memories)
    }
  }
}
