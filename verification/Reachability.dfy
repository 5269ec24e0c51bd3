/** All writers together, in every state they can reach from an empty database. */
module Reachability {
  import opened Prelude
  import opened Crypto
  import opened Store
  import opened KeyCache
  import opened Ordering
  import opened Export
  import opened Import
  import opened Portability
  import Acceptance
  import RoundTrip
  import SelfCore
  import Facts
  import Properties
  import Adaptations
  import Growth
  import Memories

  // In every such state a stored ciphertext opens under its own soul's key and label, and under no other
  // soul or label; and so every reachable soul survives an export and an import.

  /** One committed or refused transaction. An operation on the Self Core uses the key the table holds. */
  datatype Command =
    | CreateSoul(soul: SoulId, dek: Key, nonce: Nonce)
    | CoreCommand(core: SelfCore.Op)
    | FactCommand(fact: Facts.Op)
    | PropertyCommand(property: Properties.Op)
    | AdaptationCommand(adaptation: Adaptations.Op)
    | MemoryCommand(memory: Memories.Op)
    | ImportCommand(request: Request)

  ghost function WriteCore(t: Tables, master: Key, op: SelfCore.Op): Ledger {
    match TableDek(t.keys, master, op.soul)
    case Err(_) => t.ledger
    case Ok(dek) => SelfCore.Write(t.ledger, op.(dek := dek)).0
  }

  ghost function Step(t: Tables, sv: Memories.Services, c: Command): Tables {
    match c
    case CreateSoul(soul, dek, nonce) =>
      if soul in t.keys then t else t.(keys := t.keys[soul := WrapDek(dek, sv.master, nonce, Aad(soul, DekDomain))])
    case CoreCommand(op) => t.(ledger := WriteCore(t, sv.master, op))
    case FactCommand(op) => t.(facts := Facts.Apply(t.keys, sv.master, t.facts, op).0)
    case PropertyCommand(op) => t.(properties := Properties.Apply(t.keys, sv.master, t.properties, op).0)
    case AdaptationCommand(op) => t.(adaptations := Adaptations.Apply(t.keys, sv.master, t.adaptations, op).0)
    case MemoryCommand(op) => t.(memories := Memories.Apply(t.keys, sv, t.memories, op).0)
    case ImportCommand(q) => (match Imported(t, sv, q) case Ok(done) => done.tables case Err(_) => t)
  }

  function Empty(): Tables { Tables(map[], Ledger(map[], map[]), map[], map[], [], []) }

  ghost function Run(sv: Memories.Services, cs: seq<Command>): Tables {
    if cs == [] then Empty() else Step(Run(sv, cs[..|cs| - 1]), sv, cs[|cs| - 1])
  }

  // ---- every step keeps the tables in order ----

  lemma BundleKeepsCoresOk(keys: KeyTable, master: Key, l: Ledger, op: SelfCore.Op)
    requires op.BundleImport? && CoresOk(keys, master, l) && TableDek(keys, master, op.soul) == Ok(op.dek)
    ensures CoresOk(keys, master, SelfCore.Write(l, op).0)
  {
    var brought := SelfCore.Brought(op.core.history, op.soul, op.dek, op.user, op.draw);
    forall k | k in brought
      ensures k.soul == op.soul && TextSealed(brought[k].content, Ok(op.dek), op.soul, SelfCoreDomain)
    {
      BroughtSealed(op.core.history, op.soul, op.dek, op.user, op.draw, k);
    }
  }

  lemma WriteKeepsCoresOk(keys: KeyTable, master: Key, l: Ledger, op: SelfCore.Op)
    requires CoresOk(keys, master, l) && TableDek(keys, master, op.soul) == Ok(op.dek)
    ensures CoresOk(keys, master, SelfCore.Write(l, op).0)
  {
    if op.BundleImport? { BundleKeepsCoresOk(keys, master, l, op); }
  }

  lemma CoreStepKeepsHealthy(t: Tables, master: Key, op: SelfCore.Op)
    requires CoresOk(t.keys, master, t.ledger) && SelfCore.LedgerInv(t.ledger)
    ensures CoresOk(t.keys, master, WriteCore(t, master, op)) && SelfCore.LedgerInv(WriteCore(t, master, op))
  {
    match TableDek(t.keys, master, op.soul)
    case Err(_) =>
    case Ok(dek) =>
      var op' := op.(dek := dek);
      WriteKeepsCoresOk(t.keys, master, t.ledger, op');
      forall soul: SoulId ensures SelfCore.SoulInv(SelfCore.Write(t.ledger, op').0, soul) {
        SelfCore.WriteKeepsInv(t.ledger, op', soul);
      }
  }

  lemma StepKeepsHealthy(t: Tables, sv: Memories.Services, c: Command)
    requires Healthy(t, sv.master)
    ensures Healthy(Step(t, sv, c), sv.master)
  {
    match c
    case CreateSoul(soul, dek, nonce) =>
      if soul !in t.keys { NewKeyKeepsHealthy(t, sv.master, NewSoul(true, true, soul, dek, nonce)); }
    case CoreCommand(op) => CoreStepKeepsHealthy(t, sv.master, op);
    case FactCommand(op) => Facts.ApplyKeepsOk(t.keys, sv.master, t.facts, op);
    case PropertyCommand(op) => Properties.ApplyKeepsOk(t.keys, sv.master, t.properties, op);
    case AdaptationCommand(op) => Adaptations.ApplyKeepsRowsOk(t.keys, sv.master, t.adaptations, op);
    case MemoryCommand(op) => Memories.ApplyKeepsRowsOk(t.keys, sv, t.memories, op);
    case ImportCommand(q) => if Imported(t, sv, q).Ok? { ImportKeepsHealthy(t, sv, q); }
  }

  lemma {:induction false} ReachableIsHealthy(sv: Memories.Services, cs: seq<Command>)
    ensures Healthy(Run(sv, cs), sv.master)
  {
    if cs != [] {
      ReachableIsHealthy(sv, cs[..|cs| - 1]);
      StepKeepsHealthy(Run(sv, cs[..|cs| - 1]), sv, cs[|cs| - 1]);
    }
  }

  lemma ImportKeepsLineages(t: Tables, sv: Memories.Services, q: Request)
    requires Adaptations.Lineages(t.adaptations) && Imported(t, sv, q).Ok?
    ensures Adaptations.Lineages(Imported(t, sv, q).value.tables.adaptations)
  {
    var o := Parts(t, sv, q);
    AdaptationsImportKeepsOk(o.keys, sv.master, t.adaptations, o.soul, q.bundle.adaptations, q.draws.adaptations, q.now, 0);
  }

  lemma StepKeepsLineages(t: Tables, sv: Memories.Services, c: Command)
    requires Adaptations.Lineages(t.adaptations)
    ensures Adaptations.Lineages(Step(t, sv, c).adaptations)
  {
    match c
    case AdaptationCommand(op) => Adaptations.ApplyKeepsLineages(t.keys, sv.master, t.adaptations, op);
    case ImportCommand(q) => if Imported(t, sv, q).Ok? { ImportKeepsLineages(t, sv, q); }
    case _ =>
  }

  /** Imports included, the adaptation pointers stay lineages. */
  lemma {:induction false} ReachableLineages(sv: Memories.Services, cs: seq<Command>)
    ensures Adaptations.Lineages(Run(sv, cs).adaptations)
  {
    if cs == [] {
    } else {
      ReachableLineages(sv, cs[..|cs| - 1]);
      StepKeepsLineages(Run(sv, cs[..|cs| - 1]), sv, cs[|cs| - 1]);
    }
  }

  // ---- every ciphertext is at home ----

  /** `s` is stored in the tables as a record of this soul and kind. */
  ghost predicate Stores(t: Tables, s: Sealed, soul: SoulId, domain: Domain) {
    match domain
    case SelfCoreDomain =>
      || (soul in t.ledger.cores && t.ledger.cores[soul].content == s)
      || exists v :: VersionKey(soul, v) in t.ledger.history && t.ledger.history[VersionKey(soul, v)].content == s
    case FactDomain => exists k :: k in t.facts && k.soul == soul && t.facts[k].value == s
    case PropertyDomain => exists k :: k in t.properties && k.soul == soul && t.properties[k].secret == Some(s)
    case AdaptationDomain => exists i :: 0 <= i < |t.adaptations| && t.adaptations[i].soul == soul && t.adaptations[i].content == s
    case MemoryDomain => exists i :: 0 <= i < |t.memories| && t.memories[i].soul == soul && t.memories[i].content == s
    case DekDomain => false  // wrapped keys are a table of their own
  }

  lemma StoredIsSealed(t: Tables, master: Key, s: Sealed, soul: SoulId, domain: Domain)
    requires Healthy(t, master) && Stores(t, s, soul, domain)
    ensures TableDek(t.keys, master, soul).Ok? && SealedFor(s, TableDek(t.keys, master, soul).value, soul, domain)
  {
    match domain
    case SelfCoreDomain =>
      if !(soul in t.ledger.cores && t.ledger.cores[soul].content == s) {
        var v :| VersionKey(soul, v) in t.ledger.history && t.ledger.history[VersionKey(soul, v)].content == s;
        assert VersionKey(soul, v).soul == soul;
      }
    case FactDomain =>
      var k :| k in t.facts && k.soul == soul && t.facts[k].value == s;
    case PropertyDomain =>
      var k :| k in t.properties && k.soul == soul && t.properties[k].secret == Some(s);
      assert Properties.RowOk(t.properties[k], k, TableDek(t.keys, master, soul));
    case AdaptationDomain =>
      var i :| 0 <= i < |t.adaptations| && t.adaptations[i].soul == soul && t.adaptations[i].content == s;
      assert Adaptations.RowOk(t.adaptations[i], TableDek(t.keys, master, soul));
    case MemoryDomain =>
      var i :| 0 <= i < |t.memories| && t.memories[i].soul == soul && t.memories[i].content == s;
      assert Memories.RowOk(t.memories[i], TableDek(t.keys, master, soul));
  }

  /**
    In every reachable state a stored ciphertext opens under its soul's key for its own soul and label, and
    under no key whatever for any other soul or label.
   */
  lemma CiphertextsStayHome(sv: Memories.Services, cs: seq<Command>, s: Sealed, soul: SoulId, domain: Domain,
                            dek': Key, soul': SoulId, domain': Domain)
    requires Stores(Run(sv, cs), s, soul, domain)
    ensures var dek := TableDek(Run(sv, cs).keys, sv.master, soul);
            dek.Ok? && Decrypt(s, dek.value, Aad(soul, domain)) == Some(s.plain)
    ensures (soul', domain') != (soul, domain) ==> Decrypt(s, dek', Aad(soul', domain')) == None
  {
    ReachableIsHealthy(sv, cs);
    StoredIsSealed(Run(sv, cs), sv.master, s, soul, domain);
    OpensOnlyAtHome(s, TableDek(Run(sv, cs).keys, sv.master, soul).value, soul, domain, dek', soul', domain');
  }

  // ---- so are the wrapped keys ----

  ghost predicate KeysOpen(keys: KeyTable, master: Key) {
    forall soul :: soul in keys ==> TableDek(keys, master, soul).Ok?
  }

  lemma ImportKeepsKeysOpen(t: Tables, sv: Memories.Services, q: Request)
    requires KeysOpen(t.keys, sv.master)
    ensures Imported(t, sv, q).Ok? ==> KeysOpen(Imported(t, sv, q).value.tables.keys, sv.master)
  {
    if Imported(t, sv, q).Ok? {
      var o := Parts(t, sv, q);
      assert forall soul :: soul in o.keys && soul != o.soul ==> soul in t.keys;
    }
  }

  lemma StepKeepsKeysOpen(t: Tables, sv: Memories.Services, c: Command)
    requires KeysOpen(t.keys, sv.master)
    ensures KeysOpen(Step(t, sv, c).keys, sv.master)
  {
    if c.ImportCommand? { ImportKeepsKeysOpen(t, sv, c.request); }
  }

  lemma {:induction false} ReachableKeysOpen(sv: Memories.Services, cs: seq<Command>)
    ensures KeysOpen(Run(sv, cs).keys, sv.master)
  {
    if cs != [] {
      ReachableKeysOpen(sv, cs[..|cs| - 1]);
      StepKeepsKeysOpen(Run(sv, cs[..|cs| - 1]), sv, cs[|cs| - 1]);
    }
  }

  lemma UnwrapsOnlyAtHome(w: WrappedDek, master: Key, soul: SoulId, master': Key, soul': SoulId, domain': Domain)
    requires UnwrapDek(w, master, Aad(soul, DekDomain)).Some? && (soul', domain') != (soul, DekDomain)
    ensures UnwrapDek(w, master', Aad(soul', domain')) == None
  {
    if Aad(soul', domain') == Aad(soul, DekDomain) {
      AadIsInjective(soul', domain'.Label(), soul, DekDomain.Label());
      if domain' != DekDomain { LabelsDiffer(domain', DekDomain); }
    }
  }

  /**
    In every reachable state each wrapped key unwraps under the master key for its own soul, and under no
    key for any other soul or label.
   */
  lemma {:induction false} WrappedKeysStayHome(sv: Memories.Services, cs: seq<Command>, soul: SoulId, master': Key,
                                               soul': SoulId, domain': Domain)
    requires soul in Run(sv, cs).keys
    ensures UnwrapDek(Run(sv, cs).keys[soul], sv.master, Aad(soul, DekDomain)).Some?
    ensures (soul', domain') != (soul, DekDomain) ==> UnwrapDek(Run(sv, cs).keys[soul], master', Aad(soul', domain')) == None
  {
    ReachableKeysOpen(sv, cs);
    var w := Run(sv, cs).keys[soul];
    assert TableDek(Run(sv, cs).keys, sv.master, soul).Ok?;
    if (soul', domain') != (soul, DekDomain) {
      UnwrapsOnlyAtHome(w, sv.master, soul, master', soul', domain');
    }
  }

  // ---- the encrypted tables are a plain store ----

  /** A soul's facts, forgotten ones with their status, and its active properties, as a plain store would hold them. */
  datatype PlainSoul = PlainSoul(facts: map<Facts.FactName, PlainFact>, properties: map<string, Json>)

  function PlainOfSoul(t: Tables, soul: SoulId): PlainSoul {
    PlainSoul(FactsOf(t.facts, soul, true), Properties.Live(t.properties, soul))
  }

  /** What a fact operation that went through does to the plain facts of its soul. */
  function PlainFactStep(m: map<Facts.FactName, PlainFact>, op: Facts.Op): map<Facts.FactName, PlainFact> {
    var n := Facts.NameOf(op.k);
    if op.Learn? then m[n := PlainFact(op.value, op.confidence, Active)]
    else if n in m then m[n := m[n].(status := Deleted)]
    else m
  }

  function PlainPropertyStep(m: map<string, Json>, op: Properties.Op): map<string, Json> {
    if op.Delete? then m - {op.k.ptype}
    else if op.value.Some? then m[op.k.ptype := op.value.value]
    else m
  }

  function PlainImport(p: PlainSoul, q: Request): PlainSoul {
    PlainSoul(MergedFacts(p.facts, q.bundle.facts, q.mode), MergedProperties(p.properties, q.bundle.properties, q.mode))
  }

  /** The plain store under one command; whether the command is accepted is the tables' reply. */
  ghost function PlainStep(p: PlainSoul, soul: SoulId, t: Tables, sv: Memories.Services, c: Command): PlainSoul {
    match c
    case FactCommand(op) =>
      if op.k.soul == soul && Facts.Apply(t.keys, sv.master, t.facts, op).1.Pass? then p.(facts := PlainFactStep(p.facts, op)) else p
    case PropertyCommand(op) =>
      if op.k.soul == soul && Properties.Apply(t.keys, sv.master, t.properties, op).1.Pass?
      then p.(properties := PlainPropertyStep(p.properties, op)) else p
    case ImportCommand(q) =>
      if Imported(t, sv, q).Ok? && TargetOf(t, sv, q) == soul then PlainImport(p, q) else p
    case _ => p
  }

  ghost function PlainRun(sv: Memories.Services, cs: seq<Command>, soul: SoulId): PlainSoul {
    if cs == [] then PlainSoul(map[], map[])
    else
      var n := |cs| - 1;
      PlainStep(PlainRun(sv, cs[..n], soul), soul, Run(sv, cs[..n]), sv, cs[n])
  }

  lemma LearnIsPlain(facts: FactTable, k: FactKey, row: FactRow, soul: SoulId)
    requires Facts.Upsert(facts, k, row).Ok?
    ensures FactsOf(Facts.Upsert(facts, k, row).value, soul, true)
         == if k.soul == soul then FactsOf(facts, soul, true)[Facts.NameOf(k) := PlainFactOf(row)] else FactsOf(facts, soul, true)
  {
    PutFact(facts, k, if k in facts then row.(id := facts[k].id) else row, soul);
  }

  lemma ForgetIsPlain(facts: FactTable, k: FactKey, soul: SoulId)
    requires Facts.UniqueIds(facts) && k in facts
    ensures FactsOf(Facts.MarkDeleted(facts, facts[k].id), soul, true)
         == if k.soul != soul then FactsOf(facts, soul, true)
            else FactsOf(facts, soul, true)[Facts.NameOf(k) := PlainFactOf(facts[k]).(status := Deleted)]
  {
    Facts.MarkDeletedTouchesOne(facts, k);
    PutFact(facts, k, facts[k].(status := Deleted), soul);
  }

  lemma FactStepIsPlain(keys: KeyTable, master: Key, facts: FactTable, op: Facts.Op, soul: SoulId)
    requires Facts.UniqueIds(facts)
    ensures FactsOf(Facts.Apply(keys, master, facts, op).0, soul, true) ==
            if op.k.soul == soul && Facts.Apply(keys, master, facts, op).1.Pass? then PlainFactStep(FactsOf(facts, soul, true), op)
            else FactsOf(facts, soul, true)
  {
    if Facts.Apply(keys, master, facts, op).1.Pass? {
      if op.Forget? {
        ForgetIsPlain(facts, op.k, soul);
        FactsOfAt(facts, soul, true, Facts.NameOf(op.k));
      } else {
        Facts.LearnedRowIsOk(keys, master, op);
        LearnIsPlain(facts, op.k, Facts.Learned(keys, master, op).value, soul);
      }
    }
  }

  lemma PropertyStepIsPlain(keys: KeyTable, master: Key, props: PropertyTable, op: Properties.Op, soul: SoulId)
    ensures Properties.Live(Properties.Apply(keys, master, props, op).0, soul) ==
            if op.k.soul == soul && Properties.Apply(keys, master, props, op).1.Pass?
            then PlainPropertyStep(Properties.Live(props, soul), op) else Properties.Live(props, soul)
  {
    Properties.ApplyRefines(keys, master, props, op, soul);
  }

  lemma ImportHereIsPlain(t: Tables, sv: Memories.Services, q: Request, soul: SoulId)
    requires Imported(t, sv, q).Ok? && TargetOf(t, sv, q) == soul
    ensures PlainOfSoul(Imported(t, sv, q).value.tables, soul) == PlainImport(PlainOfSoul(t, soul), q)
  {
    MergeEffect(t, sv, q, true);
  }

  lemma ImportElsewhereIsPlain(t: Tables, sv: Memories.Services, q: Request, soul: SoulId)
    requires Imported(t, sv, q).Ok? && TargetOf(t, sv, q) != soul
    ensures PlainOfSoul(Imported(t, sv, q).value.tables, soul) == PlainOfSoul(t, soul)
  {
    OthersUntouched(t, sv, q, soul);
  }

  lemma StepIsPlain(t: Tables, sv: Memories.Services, c: Command, soul: SoulId)
    requires Facts.UniqueIds(t.facts)
    ensures PlainOfSoul(Step(t, sv, c), soul) == PlainStep(PlainOfSoul(t, soul), soul, t, sv, c)
  {
    match c
    case FactCommand(op) => FactStepIsPlain(t.keys, sv.master, t.facts, op, soul);
    case PropertyCommand(op) => PropertyStepIsPlain(t.keys, sv.master, t.properties, op, soul);
    case ImportCommand(q) =>
      if Imported(t, sv, q).Ok? {
        if TargetOf(t, sv, q) == soul { ImportHereIsPlain(t, sv, q, soul); } else { ImportElsewhereIsPlain(t, sv, q, soul); }
      }
    case _ =>
  }

  /** After every run of all writers, the encrypted facts and properties of every soul are those of the plain store. */
  lemma {:induction false} TablesArePlain(sv: Memories.Services, cs: seq<Command>, soul: SoulId)
    ensures PlainOfSoul(Run(sv, cs), soul) == PlainRun(sv, cs, soul)
  {
    if cs == [] {
    } else {
      var n := |cs| - 1;
      TablesArePlain(sv, cs[..n], soul);
      ReachableIsHealthy(sv, cs[..n]);
      StepIsPlain(Run(sv, cs[..n]), sv, cs[n], soul);
    }
  }

  // ---- the growth block of a reachable soul ----

  /**
    In every reachable state the growth block of a soul's active adaptations, in whatever order they are
    loaded, reads back as one entry per category, each holding that category's contents in order, and
    none is missing.
   */
  lemma ReachableGrowthReadsBack(sv: Memories.Services, cs: seq<Command>, soul: SoulId, at: seq<nat>)
    requires Growth.AllActive(at, Run(sv, cs).adaptations, soul)
    ensures forall a :: 0 <= a < |at| ==> at[a] < |Run(sv, cs).adaptations|
    ensures Growth.BlockHolds(Growth.Loaded(Run(sv, cs).adaptations, at))
  {
    var t := Run(sv, cs).adaptations;
    ReachableIsHealthy(sv, cs);
    forall a | 0 <= a < |at| ensures at[a] < |t| && !t[at[a]].category.OtherCategory? {
      assert at[a] in at;
      assert Adaptations.RowOk(t[at[a]], TableDek(Run(sv, cs).keys, sv.master, t[at[a]].soul));
    }
    Growth.StoredRowsReadBack(t, at);
  }

  // ---- every reachable soul can be moved ----

  /** The round trip between any two reachable databases, each with its own master key and services. */
  lemma ReachableSoulsRoundTrip(source: Memories.Services, cs: seq<Command>, soul: SoulId, all: bool, b: Bundle,
                                target: Memories.Services, cs': seq<Command>, q: Request, b': Bundle)
    requires IsExport(b, Run(source, cs), soul, all)
    requires RoundTrip.AsNewSoul(q, b, Run(target, cs')) && Acceptance.EmbedsRight(target.embed)
    ensures Imported(Run(target, cs'), target, q).Ok?
    ensures IsExport(b', Imported(Run(target, cs'), target, q).value.tables, q.target.id, all) ==>
      && RoundTrip.SameRows(b, b', q.recompute, target.embed)
      && (b'.core == b.core <==> RoundTrip.CoreImports(Run(source, cs).ledger, soul))
  {
    ReachableIsHealthy(source, cs);
    ReachableIsHealthy(target, cs');
    RoundTrip.SecondExportEqualsFirst(b, Run(source, cs), source.master, soul, all, Run(target, cs'), target, q, b');
  }

  // ---- an empty Self Core does not come back ----

  /** Create a soul and import an empty file as its Self Core. */
  function EmptyCore(soul: SoulId, dek: Key, n: Nonce, m: Nonce): seq<Command> {
    [CreateSoul(soul, dek, n), CoreCommand(SelfCore.CliImport(soul, "", "", "user", dek, m))]
  }

  function EmptyCoreTables(master: Key, soul: SoulId, dek: Key, n: Nonce, m: Nonce): Tables {
    Empty().(keys := map[soul := WrapDek(dek, master, n, Aad(soul, DekDomain))],
             ledger := Ledger(map[soul := CoreRow(SelfCore.SealCore("", soul, dek, m), 1, "user")], map[]))
  }

  lemma EmptyCoreIsReachable(sv: Memories.Services, soul: SoulId, dek: Key, n: Nonce, m: Nonce)
    ensures Run(sv, EmptyCore(soul, dek, n, m)) == EmptyCoreTables(sv.master, soul, dek, n, m)
  {
    var cs := EmptyCore(soul, dek, n, m);
    assert cs[..1] == [cs[0]] && cs[..1][..0] == [];
    assert Run(sv, cs[..1]) == Step(Empty(), sv, cs[0]);
    assert Run(sv, cs) == Step(Run(sv, cs[..1]), sv, cs[1]);
  }

  lemma NothingExports()
    ensures FactsExport([], map[]) && PropertiesExport([], map[])
    ensures InTimeOrder<AdaptationRecord>([], [], AdaptationTime) && InTimeOrder<MemoryRecord>([], [], MemoryTime)
  {
  }

  lemma {:induction false} EmptyCoreExported(soul: SoulId, dek: Key, m: Nonce)
    ensures CoreExport(SelfCore.BundleCore(Some(1), Some(""), []),
                       Ledger(map[soul := CoreRow(SelfCore.SealCore("", soul, dek, m), 1, "user")], map[]), soul)
  {
    assert Versions(map[], soul) == {};
  }

  /** What its export is. */
  lemma EmptyCoreExports(master: Key, soul: SoulId, dek: Key, n: Nonce, m: Nonce, all: bool)
    ensures IsExport(Bundle(EXPORT_SCHEMA_VERSION, true, true, SelfCore.BundleCore(Some(1), Some(""), []), [], [], [], []),
                     EmptyCoreTables(master, soul, dek, n, m), soul, all)
  {
    NothingExports();
    EmptyCoreExported(soul, dek, m);
    assert FactsOf(map[], soul, all) == map[];
    assert PropertiesOf(map[], soul) == map[];
  }

  /** Exported and imported as a new soul, into any healthy database, it comes back without a Self Core. */
  lemma EmptyCoreIsLost(source: Memories.Services, soul: SoulId, dek: Key, n: Nonce, m: Nonce, all: bool, b: Bundle,
                        target: Tables, sv: Memories.Services, q: Request, b': Bundle)
    requires IsExport(b, EmptyCoreTables(source.master, soul, dek, n, m), soul, all)
    requires Healthy(target, sv.master) && RoundTrip.AsNewSoul(q, b, target) && Acceptance.EmbedsRight(sv.embed)
    ensures Imported(target, sv, q).Ok?
    ensures IsExport(b', Imported(target, sv, q).value.tables, q.target.id, all) ==> b'.core != b.core
  {
    EmptyCoreIsReachable(source, soul, dek, n, m);
    ReachableIsHealthy(source, EmptyCore(soul, dek, n, m));
    RoundTrip.SecondExportEqualsFirst(b, EmptyCoreTables(source.master, soul, dek, n, m), source.master, soul, all,
                                      target, sv, q, b');
  }
}
