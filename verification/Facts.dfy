/**
  Facts: encrypted, soft-deleted rows keyed by soul, category and key. Seen through the soul's key
  they are a plain map from names to values, whatever mix of tool, web and CLI calls wrote them.
 */
module Facts {
  import opened Prelude
  import opened Crypto
  import opened Store
  import opened KeyCache
  import opened Ordering
  import opened PyText
  import opened Untrusted

  const VALUE_MAX_LEN := 4096

  datatype FactError =
    | BadIdentifier
    | TooLong
    | BadConfidence
    | NoActiveFact
    | Unreadable(error: KeyError)
    | Database(db: DbError)

  datatype Source = Tool | Web | Cli

  // ---- statements ----

  function SealFact(value: string, soul: SoulId, dek: Key, nonce: Nonce): Sealed {
    Encrypt(Text(value), dek, nonce, Aad(soul, FactDomain))
  }

  predicate IdTaken(facts: FactTable, id: nat) {
    exists k :: k in facts && facts[k].id == id
  }

  /** INSERT ... ON CONFLICT DO UPDATE: an existing row keeps its id. */
  function Upsert(facts: FactTable, k: FactKey, row: FactRow): Result<FactTable, DbError> {
    if row.status.OtherLiveness? then Err(CheckViolation)
    else if k in facts then Ok(facts[k := row.(id := facts[k].id)])
    else if IdTaken(facts, row.id) then Err(UniqueViolation)
    else Ok(facts[k := row])
  }

  /** UPDATE ... SET status = 'deleted' WHERE id: every row with that id. */
  function MarkDeleted(facts: FactTable, id: nat): FactTable {
    map k | k in facts :: if facts[k].id == id then facts[k].(status := Deleted) else facts[k]
  }

  predicate IsActive(facts: FactTable, k: FactKey) { k in facts && facts[k].status.Active? }

  // ---- the operations ----

  datatype Op =
    | Learn(source: Source, k: FactKey, value: string, confidence: real, id: nat, nonce: Nonce)
    | Forget(source: Source, k: FactKey)

  /** The tool checks the value as well; the web form and the CLI check only the names. */
  function LearnCheck(op: Op): Outcome<FactError>
    requires op.Learn?
  {
    if !IsIdentifier(op.k.category) || !IsIdentifier(op.k.key) then Fail(BadIdentifier)
    else if op.source.Tool? && |op.value| > VALUE_MAX_LEN then Fail(TooLong)
    else if op.source.Tool? && !(0.0 <= op.confidence <= 1.0) then Fail(BadConfidence)
    else Pass
  }

  /** The row a learn writes. */
  function Learned(keys: KeyTable, master: Key, op: Op): Result<FactRow, FactError>
    requires op.Learn?
  {
    match LearnCheck(op)
    case Fail(e) => Err(e)
    case Pass =>
      match TableDek(keys, master, op.k.soul)
      case Err(e) => Err(Unreadable(e))
      case Ok(dek) => Ok(FactRow(op.id, SealFact(op.value, op.k.soul, dek, op.nonce), op.confidence, Active))
  }

  function ForgetCheck(facts: FactTable, op: Op): Outcome<FactError>
    requires op.Forget?
  {
    if op.source.Tool? && !(IsIdentifier(op.k.category) && IsIdentifier(op.k.key)) then Fail(BadIdentifier)
    else if !IsActive(facts, op.k) then Fail(NoActiveFact)
    else Pass
  }

  function Apply(keys: KeyTable, master: Key, facts: FactTable, op: Op): (FactTable, Outcome<FactError>) {
    if op.Forget? then
      match ForgetCheck(facts, op)
      case Fail(e) => (facts, Fail(e))
      case Pass => (MarkDeleted(facts, facts[op.k].id), Pass)
    else
      match Learned(keys, master, op)
      case Err(e) => (facts, Fail(e))
      case Ok(row) =>
        match Upsert(facts, op.k, row)
        case Err(e) => (facts, Fail(Database(e)))
        case Ok(facts') => (facts', Pass)
  }

  method UpsertFact(db: Database, k: FactKey, row: FactRow) returns (r: Outcome<DbError>)
    modifies db`facts
    ensures match Upsert(old(db.facts), k, row)
      case Ok(facts) => r == Pass && db.facts == facts
      case Err(e) => r == Fail(e) && db.facts == old(db.facts)
  {
    if row.status.OtherLiveness? {
      return Fail(CheckViolation);
    }
    if k in db.facts {
      db.facts := db.facts[k := row.(id := db.facts[k].id)];
      return Pass;
    }
    if IdTaken(db.facts, row.id) {
      return Fail(UniqueViolation);
    }
    db.facts := db.facts[k := row];
    return Pass;
  }

  method StoreFact(db: Database, master: Key, k: FactKey, value: string, confidence: real, id: nat, nonce: Nonce)
    returns (r: Outcome<FactError>)
    modifies db`facts
    ensures match TableDek(db.keys, master, k.soul)
      case Err(e) => r == Fail(Unreadable(e)) && db.facts == old(db.facts)
      case Ok(dek) =>
        match Upsert(old(db.facts), k, FactRow(id, SealFact(value, k.soul, dek, nonce), confidence, Active))
        case Ok(facts) => r == Pass && db.facts == facts
        case Err(e) => r == Fail(Database(e)) && db.facts == old(db.facts)
  {
    var dek := TableDek(db.keys, master, k.soul);
    if dek.Err? {
      return Fail(Unreadable(dek.error));
    }
    var stored := UpsertFact(db, k, FactRow(id, SealFact(value, k.soul, dek.value, nonce), confidence, Active));
    return if stored.Fail? then Fail(Database(stored.error)) else Pass;
  }

  method LearnFact(db: Database, master: Key, k: FactKey, value: string, confidence: real, id: nat, nonce: Nonce)
    returns (r: Outcome<FactError>)
    modifies db`facts
    ensures (db.facts, r) == Apply(db.keys, master, old(db.facts), Learn(Tool, k, value, confidence, id, nonce))
  {
    if !IsIdentifier(k.category) {
      return Fail(BadIdentifier);
    }
    if !IsIdentifier(k.key) {
      return Fail(BadIdentifier);
    }
    if |value| > VALUE_MAX_LEN {
      return Fail(TooLong);
    }
    if !(0.0 <= confidence <= 1.0) {
      return Fail(BadConfidence);
    }
    r := StoreFact(db, master, k, value, confidence, id, nonce);
  }

  /** The web form and `soulctl fact set` make the same statements. */
  method SetFact(db: Database, master: Key, source: Source, k: FactKey, value: string, confidence: real, id: nat, nonce: Nonce)
    returns (r: Outcome<FactError>)
    requires !source.Tool?
    modifies db`facts
    ensures (db.facts, r) == Apply(db.keys, master, old(db.facts), Learn(source, k, value, confidence, id, nonce))
  {
    if !IsIdentifier(k.category) {
      return Fail(BadIdentifier);
    }
    if !IsIdentifier(k.key) {
      return Fail(BadIdentifier);
    }
    r := StoreFact(db, master, k, value, confidence, id, nonce);
  }

  /** Select the active row's id, then update by that id. */
  method RemoveFact(db: Database, k: FactKey) returns (r: Outcome<FactError>)
    modifies db`facts
    ensures if IsActive(old(db.facts), k) then r == Pass && db.facts == MarkDeleted(old(db.facts), old(db.facts)[k].id)
            else r == Fail(NoActiveFact) && db.facts == old(db.facts)
  {
    if k !in db.facts || !db.facts[k].status.Active? {
      return Fail(NoActiveFact);
    }
    db.facts := MarkDeleted(db.facts, db.facts[k].id);
    return Pass;
  }

  method ForgetFact(db: Database, master: Key, source: Source, k: FactKey) returns (r: Outcome<FactError>)
    modifies db`facts
    ensures (db.facts, r) == Apply(db.keys, master, old(db.facts), Forget(source, k))
  {
    if source.Tool? && !(IsIdentifier(k.category) && IsIdentifier(k.key)) {
      return Fail(BadIdentifier);
    }
    r := RemoveFact(db, k);
  }

  // ---- what every row satisfies ----

  /** Sealed for its soul under the soul's key, and within the CHECK constraint. */
  predicate RowOk(row: FactRow, soul: SoulId, dek: Result<Key, KeyError>) {
    && !row.status.OtherLiveness?
    && dek.Ok? && SealedFor(row.value, dek.value, soul, FactDomain) && row.value.plain.Text?
  }

  ghost predicate RowsOk(keys: KeyTable, master: Key, facts: FactTable) {
    forall k :: k in facts ==> RowOk(facts[k], k.soul, TableDek(keys, master, k.soul))
  }

  ghost predicate UniqueIds(facts: FactTable) {
    forall k, k' :: k in facts && k' in facts && facts[k].id == facts[k'].id ==> k == k'
  }

  ghost predicate FactsOk(keys: KeyTable, master: Key, facts: FactTable) {
    RowsOk(keys, master, facts) && UniqueIds(facts)
  }

  lemma UpsertKeepsOk(keys: KeyTable, master: Key, facts: FactTable, k: FactKey, row: FactRow)
    requires FactsOk(keys, master, facts) && Upsert(facts, k, row).Ok?
    requires RowOk(row, k.soul, TableDek(keys, master, k.soul))
    ensures FactsOk(keys, master, Upsert(facts, k, row).value)
  {
  }

  lemma MarkDeletedTouchesOne(facts: FactTable, k: FactKey)
    requires UniqueIds(facts) && k in facts
    ensures MarkDeleted(facts, facts[k].id) == facts[k := facts[k].(status := Deleted)]
  {
  }

  lemma LearnedRowIsOk(keys: KeyTable, master: Key, op: Op)
    requires op.Learn? && Learned(keys, master, op).Ok?
    ensures var row := Learned(keys, master, op).value;
            && RowOk(row, op.k.soul, TableDek(keys, master, op.k.soul))
            && row.status.Active? && KnownOf(row) == Known(op.value, op.confidence)
  {
  }

  lemma ApplyKeepsOk(keys: KeyTable, master: Key, facts: FactTable, op: Op)
    requires FactsOk(keys, master, facts)
    ensures FactsOk(keys, master, Apply(keys, master, facts, op).0)
  {
    if Apply(keys, master, facts, op).1.Pass? {
      if op.Forget? {
        MarkDeletedTouchesOne(facts, op.k);
      } else {
        LearnedRowIsOk(keys, master, op);
        UpsertKeepsOk(keys, master, facts, op.k, Learned(keys, master, op).value);
      }
    }
  }

  // ---- the plain map ----

  datatype FactName = FactName(category: string, key: string)

  datatype Known = Known(value: string, confidence: real)

  function KnownOf(row: FactRow): Known { Known(TextOf(row.value), row.confidence) }

  /** The soul's live facts. */
  function Live(facts: FactTable, soul: SoulId): map<FactName, Known> {
    map k | k in facts && k.soul == soul && facts[k].status.Active? :: FactName(k.category, k.key) := KnownOf(facts[k])
  }

  function NameOf(k: FactKey): FactName { FactName(k.category, k.key) }

  lemma LiveAt(facts: FactTable, soul: SoulId, n: FactName)
    ensures n in Live(facts, soul) <==> IsActive(facts, FactKey(soul, n.category, n.key))
    ensures n in Live(facts, soul) ==> Live(facts, soul)[n] == KnownOf(facts[FactKey(soul, n.category, n.key)])
  {
    assert FactKey(soul, n.category, n.key) in facts ==> NameOf(FactKey(soul, n.category, n.key)) == n;
  }

  /** The plain map under one operation: a refused operation changes nothing. */
  function Plainly(live: map<FactName, Known>, soul: SoulId, op: Op, r: Outcome<FactError>): map<FactName, Known> {
    if r.Fail? || op.k.soul != soul then live
    else if op.Learn? then live[NameOf(op.k) := Known(op.value, op.confidence)]
    else live - {NameOf(op.k)}
  }

  lemma PutLive(facts: FactTable, k: FactKey, row: FactRow, soul: SoulId)
    ensures Live(facts[k := row], soul) ==
      if k.soul != soul then Live(facts, soul)
      else if row.status.Active? then Live(facts, soul)[NameOf(k) := KnownOf(row)]
      else Live(facts, soul) - {NameOf(k)}
  {
    var facts' := facts[k := row];
    forall n
      ensures n in Live(facts', soul) <==>
        if k == FactKey(soul, n.category, n.key) then row.status.Active? else n in Live(facts, soul)
      ensures n in Live(facts', soul) ==>
        Live(facts', soul)[n] == if k == FactKey(soul, n.category, n.key) then KnownOf(row) else Live(facts, soul)[n]
    {
      LiveAt(facts, soul, n);
      LiveAt(facts', soul, n);
    }
    assert FactKey(k.soul, NameOf(k).category, NameOf(k).key) == k;
  }

  lemma UpsertRefines(facts: FactTable, k: FactKey, row: FactRow, soul: SoulId)
    requires row.status.Active? && Upsert(facts, k, row).Ok?
    ensures Live(Upsert(facts, k, row).value, soul) ==
            if k.soul == soul then Live(facts, soul)[NameOf(k) := KnownOf(row)] else Live(facts, soul)
  {
    PutLive(facts, k, if k in facts then row.(id := facts[k].id) else row, soul);
  }

  lemma DeleteRefines(facts: FactTable, k: FactKey, soul: SoulId)
    requires UniqueIds(facts) && k in facts
    ensures Live(MarkDeleted(facts, facts[k].id), soul) ==
            if k.soul == soul then Live(facts, soul) - {NameOf(k)} else Live(facts, soul)
  {
    MarkDeletedTouchesOne(facts, k);
    PutLive(facts, k, facts[k].(status := Deleted), soul);
  }

  lemma ApplyRefines(keys: KeyTable, master: Key, facts: FactTable, op: Op, soul: SoulId)
    requires UniqueIds(facts)
    ensures var (facts', r) := Apply(keys, master, facts, op);
            Live(facts', soul) ==
              if r.Fail? || op.k.soul != soul then Live(facts, soul)
              else if op.Forget? then Live(facts, soul) - {NameOf(op.k)}
              else Live(facts, soul)[NameOf(op.k) := Known(op.value, op.confidence)]
  {
    if op.Forget? {
      if ForgetCheck(facts, op).Pass? { DeleteRefines(facts, op.k, soul); }
    } else if Learned(keys, master, op).Ok? {
      LearnedRowIsOk(keys, master, op);
      if Upsert(facts, op.k, Learned(keys, master, op).value).Ok? {
        UpsertRefines(facts, op.k, Learned(keys, master, op).value, soul);
      }
    }
  }

  // ---- which facts are learned ----

  /** Why a learn is refused, if it is. */
  ghost predicate Refuses(keys: KeyTable, master: Key, facts: FactTable, op: Op, e: FactError)
    requires op.Learn?
  {
    var named := IsIdentifier(op.k.category) && IsIdentifier(op.k.key);
    var short := op.source.Tool? ==> |op.value| <= 4096;
    var sure := op.source.Tool? ==> 0.0 <= op.confidence <= 1.0;
    var dek := TableDek(keys, master, op.k.soul);
    match e
    case BadIdentifier => !named
    case TooLong => named && !short
    case BadConfidence => named && short && !sure
    case Unreadable(key) => named && short && sure && dek == Err(key)
    case Database(db) =>
      named && short && sure && dek.Ok? && db == UniqueViolation && op.k !in facts && exists k :: k in facts && facts[k].id == op.id
    case NoActiveFact => false
  }

  /** A learn is refused for exactly these reasons, and otherwise accepted; a refused one changes nothing. */
  lemma LearnRefusedIff(keys: KeyTable, master: Key, facts: FactTable, op: Op, e: FactError)
    requires op.Learn?
    ensures Apply(keys, master, facts, op).1 == Fail(e) <==> Refuses(keys, master, facts, op, e)
    ensures Apply(keys, master, facts, op).1.Fail? ==> Apply(keys, master, facts, op).0 == facts
  {
  }

  // ---- runs ----

  /** The table after a run; `keys(i)` is the key table when operation `i` runs, so souls may be created meanwhile. */
  function Run(keys: nat -> KeyTable, master: Key, ops: seq<Op>): FactTable {
    if ops == [] then map[]
    else
      var n := |ops| - 1;
      Apply(keys(n), master, Run(keys, master, ops[..n]), ops[n]).0
  }

  function Reply(keys: nat -> KeyTable, master: Key, ops: seq<Op>, i: nat): Outcome<FactError>
    requires i < |ops|
  {
    Apply(keys(i), master, Run(keys, master, ops[..i]), ops[i]).1
  }

  /** The plain map after the same operations. */
  function PlainRun(keys: nat -> KeyTable, master: Key, ops: seq<Op>, soul: SoulId): map<FactName, Known> {
    if ops == [] then map[]
    else
      var n := |ops| - 1;
      Plainly(PlainRun(keys, master, ops[..n], soul), soul, ops[n], Reply(keys, master, ops, n))
  }

  lemma ApplyKeepsIds(keys: KeyTable, master: Key, facts: FactTable, op: Op)
    requires UniqueIds(facts)
    ensures UniqueIds(Apply(keys, master, facts, op).0)
  {
    if op.Forget? && ForgetCheck(facts, op).Pass? {
      MarkDeletedTouchesOne(facts, op.k);
    }
  }

  lemma {:induction false} RunKeepsIds(keys: nat -> KeyTable, master: Key, ops: seq<Op>)
    ensures UniqueIds(Run(keys, master, ops))
  {
    if ops != [] {
      var n := |ops| - 1;
      RunKeepsIds(keys, master, ops[..n]);
      ApplyKeepsIds(keys(n), master, Run(keys, master, ops[..n]), ops[n]);
    }
  }

  /** After every run the encrypted table is the plain map, for every soul. */
  lemma {:induction false} TableRefinesMap(keys: nat -> KeyTable, master: Key, ops: seq<Op>, soul: SoulId)
    ensures Live(Run(keys, master, ops), soul) == PlainRun(keys, master, ops, soul)
  {
    if ops != [] {
      var n := |ops| - 1;
      TableRefinesMap(keys, master, ops[..n], soul);
      RunKeepsIds(keys, master, ops[..n]);
      ApplyRefines(keys(n), master, Run(keys, master, ops[..n]), ops[n], soul);
    }
  }

  /** Forgetting is refused exactly when the plain map has no such name, or the tool refuses a malformed one. */
  lemma {:induction false} ForgetRefusedIffAbsent(keys: nat -> KeyTable, master: Key, ops: seq<Op>, source: Source, k: FactKey)
    ensures Apply(keys(|ops|), master, Run(keys, master, ops), Forget(source, k)).1 ==
            if source.Tool? && !(IsIdentifier(k.category) && IsIdentifier(k.key)) then Fail(BadIdentifier)
            else if FactName(k.category, k.key) in PlainRun(keys, master, ops, k.soul) then Pass
            else Fail(NoActiveFact)
  {
    TableRefinesMap(keys, master, ops, k.soul);
    LiveAt(Run(keys, master, ops), k.soul, NameOf(k));
  }

  lemma ApplyKeepsRow(keys: KeyTable, master: Key, facts: FactTable, op: Op, k: FactKey)
    requires k in facts
    ensures k in Apply(keys, master, facts, op).0 && Apply(keys, master, facts, op).0[k].id == facts[k].id
  {
  }

  /** Rows are never removed and keep their id: learning a forgotten fact revives the row it had. */
  lemma {:induction false} RowKeepsItsId(keys: nat -> KeyTable, master: Key, ops: seq<Op>, n: nat, k: FactKey)
    requires n <= |ops| && k in Run(keys, master, ops[..n])
    ensures k in Run(keys, master, ops)
    ensures Run(keys, master, ops)[k].id == Run(keys, master, ops[..n])[k].id
    decreases |ops|
  {
    if n == |ops| {
      assert ops[..n] == ops;
    } else {
      var m := |ops| - 1;
      assert ops[..m][..n] == ops[..n];
      RowKeepsItsId(keys, master, ops[..m], n, k);
      ApplyKeepsRow(keys(m), master, Run(keys, master, ops[..m]), ops[m], k);
    }
  }

  // ---- listing ----

  predicate NameLess(a: FactName, b: FactName) {
    StringLess(a.category, b.category) || (a.category == b.category && StringLess(a.key, b.key))
  }

  lemma NameOrder()
    ensures StrictOrder(NameLess)
  {
    StringOrder();
  }

  datatype Listed = Listed(id: nat, name: FactName, known: Known)

  /** An empty category filters nothing. */
  function Wanted(live: map<FactName, Known>, category: Option<string>): set<FactName> {
    set n | n in live && (category.None? || category.value == "" || n.category == category.value)
  }

  /** The live map in order: each wanted name once, with its value. */
  ghost predicate IsListing(rows: seq<Listed>, live: map<FactName, Known>, category: Option<string>) {
    && Lists(seq(|rows|, i requires 0 <= i < |rows| => rows[i].name), Wanted(live, category), NameLess)
    && forall i :: 0 <= i < |rows| ==> rows[i].name in live && rows[i].known == live[rows[i].name]
  }

  function ReadFact(row: FactRow, soul: SoulId, dek: Key): (r: Option<Known>)
    ensures r.Some? ==> r.value == KnownOf(row)
    ensures RowOk(row, soul, Ok(dek)) ==> r.Some?
  {
    match Decrypt(row.value, dek, Aad(soul, FactDomain))
    case Some(Text(text)) => Some(Known(text, row.confidence))
    case _ => None
  }

  method ReadFacts(facts: FactTable, soul: SoulId, dek: Key, names: seq<FactName>) returns (r: Result<seq<Listed>, FactError>)
    requires forall j :: 0 <= j < |names| ==> names[j] in Live(facts, soul)
    ensures r.Ok? ==> |r.value| == |names| && forall j :: 0 <= j < |names| ==>
      r.value[j].name == names[j] && r.value[j].known == Live(facts, soul)[names[j]]
    ensures (forall k :: k in facts && k.soul == soul ==> RowOk(facts[k], soul, Ok(dek))) ==> r.Ok?
  {
    var rows: seq<Listed> := [];
    for i := 0 to |names|
      invariant |rows| == i
      invariant forall j :: 0 <= j < i ==> rows[j].name == names[j] && rows[j].known == Live(facts, soul)[names[j]]
    {
      var row := RowNamed(facts, soul, names[i]);
      var known := ReadFact(row, soul, dek);
      if known.None? {
        return Err(Unreadable(BadTag));
      }
      rows := rows + [Listed(row.id, names[i], known.value)];
    }
    return Ok(rows);
  }

  /** How ids, confidences and the day of a row's last change print. */
  datatype Style = Style(id: nat -> string, tenth: real -> string, updated: nat -> string)

  /** A fact under its header line. */
  function Entry(style: Style, row: Listed): string {
    "[" + row.name.category + "/" + row.name.key + ", confidence=" + style.tenth(row.known.confidence) + ", updated="
    + style.updated(row.id) + "]\n" + row.known.value
  }

  function Entries(style: Style, rows: seq<Listed>): seq<string> {
    seq(|rows|, i requires 0 <= i < |rows| => Entry(style, rows[i]))
  }

  function RowIds(style: Style, rows: seq<Listed>): seq<string> {
    seq(|rows|, i requires 0 <= i < |rows| => style.id(rows[i].id))
  }

  /** What the tool returns for the rows it selected. */
  function Told(style: Style, rows: seq<Listed>, category: Option<string>): string {
    if rows != [] then Join("\n\n", WrapAll(FACT, RowIds(style, rows), Entries(style, rows)))
    else "No facts found" + (if category.Some? && category.value != "" then " in category '" + category.value + "'" else "") + "."
  }

  lemma NothingTold(style: Style, category: Option<string>)
    ensures category in {None, Some("")} ==> Told(style, [], category) == "No facts found" + "."
    ensures category !in {None, Some("")} ==>
      Told(style, [], category) == "No facts found" + (" in category '" + category.value + "'") + "."
  {
    assert "No facts found" + "" + "." == "No facts found" + ".";
  }

  method GetFacts(db: Database, master: Key, style: Style, soul: SoulId, category: Option<string>)
    returns (r: Result<string, FactError>, ghost rows: seq<Listed>)
    ensures TableDek(db.keys, master, soul).Err? ==> r == Err(Unreadable(TableDek(db.keys, master, soul).error))
    ensures r.Ok? ==> IsListing(rows, Live(db.facts, soul), category) && r.value == Told(style, rows, category)
    ensures RowsOk(db.keys, master, db.facts) ==> (r.Ok? <==> TableDek(db.keys, master, soul).Ok?)
  {
    rows := [];
    var dek := TableDek(db.keys, master, soul);
    if dek.Err? {
      return Err(Unreadable(dek.error)), rows;
    }
    var live := Live(db.facts, soul);
    NameOrder();
    var names := OrderBy(Wanted(live, category), NameLess);
    assert forall j :: 0 <= j < |names| ==> names[j] in names;
    var found := ReadFacts(db.facts, soul, dek.value, names);
    if found.Err? {
      return Err(found.error), rows;
    }
    rows := found.value;
    assert seq(|rows|, i requires 0 <= i < |rows| => rows[i].name) == names;
    if found.value == [] {
      return Ok(Told(style, [], category)), rows;
    }
    var text := Render(FACT, RowIds(style, found.value), Entries(style, found.value));
    return Ok(text), rows;
  }

  function RowNamed(facts: FactTable, soul: SoulId, n: FactName): (row: FactRow)
    requires n in Live(facts, soul)
    ensures FactKey(soul, n.category, n.key) in facts && row == facts[FactKey(soul, n.category, n.key)]
    ensures row.status.Active? && KnownOf(row) == Live(facts, soul)[n]
  {
    LiveAt(facts, soul, n);
    facts[FactKey(soul, n.category, n.key)]
  }

  /** There is one listing of a map. */
  lemma ListingIsDetermined(a: seq<Listed>, b: seq<Listed>, live: map<FactName, Known>, category: Option<string>)
    requires IsListing(a, live, category) && IsListing(b, live, category)
    ensures |a| == |b| && forall i :: 0 <= i < |a| ==> a[i].name == b[i].name && a[i].known == b[i].known
  {
    NameOrder();
    var x, y := seq(|a|, i requires 0 <= i < |a| => a[i].name), seq(|b|, i requires 0 <= i < |b| => b[i].name);
    ListingIsUnique(x, y, Wanted(live, category), NameLess);
    forall i | 0 <= i < |a| ensures a[i].name == b[i].name {
      assert x[i] == y[i];
    }
  }

  // ---- what the listing's text holds ----

  /** Ids print without markup, as UUIDs do. */
  ghost predicate PlainIds(style: Style) { forall n :: CleanId(style.id(n)) }

  lemma IdIsClean(style: Style, id: nat)
    requires PlainIds(style)
    ensures CleanId(style.id(id))
  {
  }

  lemma ListingScans(style: Style, rows: seq<Listed>, category: Option<string>)
    requires PlainIds(style) && rows != []
    ensures Scans(Told(style, rows, category), FACT, RowIds(style, rows), Entries(style, rows))
  {
    forall i | 0 <= i < |rows| ensures CleanId(RowIds(style, rows)[i]) {
      IdIsClean(style, rows[i].id);
    }
    FactTagIsValid();
    ScanRecoversAll(FACT, RowIds(style, rows), Entries(style, rows));
  }

  /** Entry `i` is the fact's name, confidence and day, and under them its value. */
  ghost predicate ShowsFact(style: Style, rows: seq<Listed>, i: nat)
    requires i < |rows|
  {
    var row := rows[i];
    && RowIds(style, rows)[i] == style.id(row.id)
    && Entries(style, rows)[i] == "[" + row.name.category + "/" + row.name.key + ", confidence=" + style.tenth(row.known.confidence)
                                  + ", updated=" + style.updated(row.id) + "]\n" + row.known.value
  }

  lemma FactIsShown(style: Style, rows: seq<Listed>, i: nat)
    requires i < |rows|
    ensures ShowsFact(style, rows, i)
  {
  }

  /**
    After any run, scanning the text of a listing finds exactly the facts of the plain map that were
    asked for, in order of category and key, each under its header, whatever their values are.
   */
  lemma TextHoldsLiveFacts(keys: nat -> KeyTable, master: Key, ops: seq<Op>, soul: SoulId, category: Option<string>,
                           style: Style, rows: seq<Listed>)
    requires IsListing(rows, Live(Run(keys, master, ops), soul), category) && rows != [] && PlainIds(style)
    ensures Scans(Told(style, rows, category), FACT, RowIds(style, rows), Entries(style, rows))
    ensures var plain, names := PlainRun(keys, master, ops, soul), seq(|rows|, i requires 0 <= i < |rows| => rows[i].name);
      && (forall i :: 0 <= i < |rows| ==> rows[i].name in plain && rows[i].known == plain[rows[i].name])
      && (forall i, j :: 0 <= i < j < |rows| ==> NameLess(rows[i].name, rows[j].name))
      && forall n :: n in names <==>
           n in plain && (category.None? || category.value == "" || n.category == category.value)
    ensures forall i :: 0 <= i < |rows| ==> ShowsFact(style, rows, i)
  {
    TableRefinesMap(keys, master, ops, soul);
    ListingScans(style, rows, category);
    var names := seq(|rows|, i requires 0 <= i < |rows| => rows[i].name);
    forall i, j | 0 <= i < j < |rows| ensures NameLess(rows[i].name, rows[j].name) {
      assert NameLess(names[i], names[j]);
    }
    forall i | 0 <= i < |rows| ensures ShowsFact(style, rows, i) { FactIsShown(style, rows, i); }
  }
}
