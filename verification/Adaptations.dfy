/**
  Adaptations: rows are added, or superseded by a new row that they then point to. The pointers form
  lineages, and every lineage ends in the row that speaks for it.
 */
module Adaptations {
  import opened Prelude
  import opened Crypto
  import opened Store
  import opened KeyCache

  datatype AdaptationError =
    | NotActive
    | Unreadable(error: KeyError)
    | Database(db: DbError)

  // ---- statements ----

  function SealAdaptation(content: string, soul: SoulId, dek: Key, nonce: Nonce): Sealed {
    Encrypt(Text(content), dek, nonce, Aad(soul, AdaptationDomain))
  }

  predicate IdTaken(t: AdaptationTable, id: nat) {
    exists i :: 0 <= i < |t| && t[i].id == id
  }

  /** INSERT, under the CHECK constraints and the primary key. */
  function Insert(t: AdaptationTable, row: AdaptationRow): Result<AdaptationTable, DbError> {
    if row.category.OtherCategory? || row.status.OtherLifecycle? then Err(CheckViolation)
    else if IdTaken(t, row.id) then Err(UniqueViolation)
    else Ok(t + [row])
  }

  /** The position of the row with this id, or the end. */
  function Position(t: AdaptationTable, id: nat): (i: nat)
    ensures i <= |t| && (i < |t| ==> t[i].id == id) && forall j :: 0 <= j < i ==> t[j].id != id
  {
    if t == [] || t[0].id == id then 0 else 1 + Position(t[1..], id)
  }

  /** UPDATE ... SET status = 'superseded', superseded_by WHERE id. */
  function MarkSuperseded(t: AdaptationTable, id: nat, newId: nat): (r: AdaptationTable)
    ensures |r| == |t|
  {
    seq(|t|, i requires 0 <= i < |t| =>
      if t[i].id == id then t[i].(status := Superseded, supersededBy := Some(newId)) else t[i])
  }

  // ---- the operations ----

  datatype Op =
    | Add(soul: SoulId, category: Category, content: string, confidence: real, origin: string, id: nat, nonce: Nonce, now: Time)
    | Supersede(oldId: nat, content: string, newConfidence: Option<real>, id: nat, nonce: Nonce, now: Time)
    | Import(soul: SoulId, category: Category, content: string, confidence: real, source: Option<string>, status: Lifecycle,
             id: nat, nonce: Nonce, now: Time)

  /** The row an operation inserts. */
  function NewRow(keys: KeyTable, master: Key, t: AdaptationTable, op: Op): Result<AdaptationRow, AdaptationError> {
    match op
    case Add(soul, category, content, confidence, source, id, nonce, now) =>
      Sealing(keys, master, soul, category, content, confidence, Some(source), Current, id, nonce, now)
    case Import(soul, category, content, confidence, source, status, id, nonce, now) =>
      Sealing(keys, master, soul, category, content, confidence, source, status, id, nonce, now)
    case Supersede(oldId, content, confidence, id, nonce, now) =>
      var i := Position(t, oldId);
      if i == |t| || !t[i].status.Current? then Err(NotActive)
      else
        Sealing(keys, master, t[i].soul, t[i].category, content,
                if confidence.Some? then confidence.value else t[i].confidence,
                Some("supersede"), Current, id, nonce, now)
  }

  function Sealing(keys: KeyTable, master: Key, soul: SoulId, category: Category, content: string, confidence: real,
                   source: Option<string>, status: Lifecycle, id: nat, nonce: Nonce, now: Time):
    Result<AdaptationRow, AdaptationError>
  {
    match TableDek(keys, master, soul)
    case Err(e) => Err(Unreadable(e))
    case Ok(dek) =>
      Ok(AdaptationRow(id, soul, category, SealAdaptation(content, soul, dek, nonce), confidence, source, now, None, status))
  }

  function Apply(keys: KeyTable, master: Key, t: AdaptationTable, op: Op): (AdaptationTable, Outcome<AdaptationError>) {
    match NewRow(keys, master, t, op)
    case Err(e) => (t, Fail(e))
    case Ok(row) =>
      match Insert(t, row)
      case Err(e) => (t, Fail(Database(e)))
      case Ok(t') => (if op.Supersede? then MarkSuperseded(t', op.oldId, op.id) else t', Pass)
  }

  method InsertAdaptation(db: Database, row: AdaptationRow) returns (r: Outcome<DbError>)
    modifies db`adaptations
    ensures match Insert(old(db.adaptations), row)
      case Ok(t) => r == Pass && db.adaptations == t
      case Err(e) => r == Fail(e) && db.adaptations == old(db.adaptations)
  {
    if row.category.OtherCategory? || row.status.OtherLifecycle? {
      return Fail(CheckViolation);
    }
    if IdTaken(db.adaptations, row.id) {
      return Fail(UniqueViolation);
    }
    db.adaptations := db.adaptations + [row];
    return Pass;
  }

  method AdaptationAdd(db: Database, master: Key, soul: SoulId, category: Category, content: string, confidence: real,
                       source: string, id: nat, nonce: Nonce, now: Time) returns (r: Outcome<AdaptationError>)
    modifies db`adaptations
    ensures (db.adaptations, r)
         == Apply(db.keys, master, old(db.adaptations), Add(soul, category, content, confidence, source, id, nonce, now))
    ensures r.Pass? ==>
      SaysOneMore(old(db.adaptations), db.adaptations, Said(soul, category, Text(content), confidence, Some(source), Current, now))
  {
    var dek := TableDek(db.keys, master, soul);
    if dek.Err? {
      return Fail(Unreadable(dek.error));
    }
    var sealed := SealAdaptation(content, soul, dek.value, nonce);
    var inserted := InsertAdaptation(db,
                                     AdaptationRow(id, soul, category, sealed, confidence, Some(source), now, None, Current));
    if inserted.Fail? {
      return Fail(Database(inserted.error));
    }
    AddSays(db.keys, master, old(db.adaptations), Add(soul, category, content, confidence, source, id, nonce, now));
    return Pass;
  }

  method AdaptationSupersede(db: Database, master: Key, oldId: nat, content: string, confidence: Option<real>,
                             id: nat, nonce: Nonce, now: Time) returns (r: Outcome<AdaptationError>)
    modifies db`adaptations
    ensures (db.adaptations, r)
         == Apply(db.keys, master, old(db.adaptations), Supersede(oldId, content, confidence, id, nonce, now))
  {
    var i := Position(db.adaptations, oldId);
    if i == |db.adaptations| || !db.adaptations[i].status.Current? {
      return Fail(NotActive);
    }
    var row := db.adaptations[i];
    var conf := if confidence.Some? then confidence.value else row.confidence;
    var dek := TableDek(db.keys, master, row.soul);
    if dek.Err? {
      return Fail(Unreadable(dek.error));
    }
    var sealed := SealAdaptation(content, row.soul, dek.value, nonce);
    var inserted := InsertAdaptation(db,
        AdaptationRow(id, row.soul, row.category, sealed, conf, Some("supersede"), now, None, Current));
    if inserted.Fail? {
      return Fail(Database(inserted.error));
    }
    db.adaptations := MarkSuperseded(db.adaptations, oldId, id);
    return Pass;
  }

  // ---- lineages ----

  ghost predicate UniqueIds(t: AdaptationTable) {
    forall i, j :: 0 <= i < j < |t| ==> t[i].id != t[j].id
  }

  /** Superseded by a later row of the same soul and category. */
  ghost predicate PointsForward(t: AdaptationTable, i: nat)
    requires i < |t|
  {
    t[i].supersededBy.Some? ==>
      && t[i].status.Superseded?
      && var j := Position(t, t[i].supersededBy.value);
      && i < j < |t|
      && t[j].soul == t[i].soul && t[j].category == t[i].category
      && !Loose(t[j])
  }

  /** Not active, and pointing nowhere: only an import makes such rows. */
  predicate Loose(row: AdaptationRow) { row.supersededBy.None? && !row.status.Current? }

  ghost predicate Lineages(t: AdaptationTable) {
    && UniqueIds(t)
    && (forall i :: 0 <= i < |t| ==> PointsForward(t, i))
    && (forall i, j :: 0 <= i < j < |t| && t[i].supersededBy.Some? ==> t[i].supersededBy != t[j].supersededBy)
  }

  lemma PositionIs(t: AdaptationTable, i: nat)
    requires UniqueIds(t) && i < |t|
    ensures Position(t, t[i].id) == i
  {
    var p := Position(t, t[i].id);
    assert p <= i && t[p].id == t[i].id;
  }

  lemma {:induction false} PositionGrows(t: AdaptationTable, row: AdaptationRow, id: nat)
    requires Position(t, id) < |t|
    ensures Position(t + [row], id) == Position(t, id)
  {
    assert (t + [row])[0] == t[0] && (t + [row])[1..] == t[1..] + [row];
    if t[0].id != id { PositionGrows(t[1..], row, id); }
  }

  lemma InsertKeepsLineages(t: AdaptationTable, row: AdaptationRow)
    requires Lineages(t) && Insert(t, row).Ok? && row.supersededBy.None?
    ensures Lineages(t + [row])
  {
    var t' := t + [row];
    forall i | 0 <= i < |t'| ensures PointsForward(t', i) {
      if i < |t| && t[i].supersededBy.Some? {
        assert PointsForward(t, i);
        PositionGrows(t, row, t[i].supersededBy.value);
      }
    }
  }

  /** Superseding touches one row. */
  lemma MarkTouchesOne(t: AdaptationTable, i: nat, newId: nat)
    requires UniqueIds(t) && i < |t|
    ensures MarkSuperseded(t, t[i].id, newId) == t[i := t[i].(status := Superseded, supersededBy := Some(newId))]
  {
  }

  /** The ids alone decide positions. */
  lemma {:induction false} PositionByIds(t: AdaptationTable, t': AdaptationTable, id: nat)
    requires |t| == |t'| && forall i :: 0 <= i < |t| ==> t[i].id == t'[i].id
    ensures Position(t, id) == Position(t', id)
  {
    if t != [] { PositionByIds(t[1..], t'[1..], id); }
  }

  /** A current row may point to the last one. */
  lemma PointKeepsLineages(t: AdaptationTable, i: nat)
    requires Lineages(t) && i < |t| - 1 && t[i].status.Current? && !Loose(t[|t| - 1])
    requires t[i].soul == t[|t| - 1].soul && t[i].category == t[|t| - 1].category
    requires forall j :: 0 <= j < |t| ==> t[j].supersededBy != Some(t[|t| - 1].id)
    ensures Lineages(t[i := t[i].(status := Superseded, supersededBy := Some(t[|t| - 1].id))])
  {
    var t' := t[i := t[i].(status := Superseded, supersededBy := Some(t[|t| - 1].id))];
    PositionIs(t, |t| - 1);
    forall k | 0 <= k < |t'| ensures PointsForward(t', k) {
      assert PointsForward(t, k);
      if t'[k].supersededBy.Some? {
        PositionByIds(t, t', t'[k].supersededBy.value);
      }
    }
  }

  lemma NewIdIsNotPointedTo(t: AdaptationTable, id: nat, j: nat)
    requires Lineages(t) && !IdTaken(t, id) && j < |t|
    ensures t[j].supersededBy != Some(id)
  {
    assert PointsForward(t, j);
  }

  lemma SupersedeShape(keys: KeyTable, master: Key, t: AdaptationTable, op: Op) returns (i: nat, row: AdaptationRow)
    requires Lineages(t) && op.Supersede? && Apply(keys, master, t, op).1.Pass?
    ensures i < |t| && t[i].id == op.oldId && t[i].status.Current? && t[i].supersededBy.None?
    ensures NewRow(keys, master, t, op) == Ok(row) && Insert(t, row) == Ok(t + [row])
    ensures row.soul == t[i].soul && row.category == t[i].category && row.status.Current? && row.supersededBy.None?
    ensures row.id == op.id
    ensures Apply(keys, master, t, op).0 == (t + [row])[i := t[i].(status := Superseded, supersededBy := Some(op.id))]
  {
    i := Position(t, op.oldId);
    row := NewRow(keys, master, t, op).value;
    assert PointsForward(t, i);
    InsertKeepsLineages(t, row);
    assert (t + [row])[i] == t[i];
    MarkTouchesOne(t + [row], i, op.id);
  }

  /** What an adaptation says, for whoever holds the soul's key. */
  datatype Said = Said(soul: SoulId, category: Category, content: Plaintext, confidence: real,
                       source: Option<string>, status: Lifecycle, at: Time)

  function SaidBy(row: AdaptationRow): Said {
    Said(row.soul, row.category, row.content.plain, row.confidence, row.source, row.status, row.createdAt)
  }

  predicate Stored(c: Category) {
    c in {RelationshipDepth, TopicStance, BehavioralRefinement, SharedReference, EmotionalCalibration}
  }

  /** An add is accepted if and only if its category is one of the five, its soul has a key and its id is new. */
  lemma AddedIff(keys: KeyTable, master: Key, t: AdaptationTable, op: Op)
    requires op.Add?
    ensures Apply(keys, master, t, op).1.Pass? <==>
      Stored(op.category) && TableDek(keys, master, op.soul).Ok? && forall i :: 0 <= i < |t| ==> t[i].id != op.id
    ensures Apply(keys, master, t, op).1.Fail? ==> Apply(keys, master, t, op).0 == t
  {
  }

  /** A supersede is accepted if and only if the old row is there and active, its soul has a key and the new id is new. */
  lemma SupersededIff(keys: KeyTable, master: Key, t: AdaptationTable, op: Op)
    requires op.Supersede? && UniqueIds(t) && forall i :: 0 <= i < |t| ==> Stored(t[i].category)
    ensures Apply(keys, master, t, op).1.Pass? <==>
      && (exists i :: 0 <= i < |t| && t[i].id == op.oldId && t[i].status.Current? && TableDek(keys, master, t[i].soul).Ok?)
      && forall i :: 0 <= i < |t| ==> t[i].id != op.id
    ensures Apply(keys, master, t, op).1.Fail? ==> Apply(keys, master, t, op).0 == t
  {
    forall i | 0 <= i < |t| && t[i].id == op.oldId { PositionIs(t, i); }
  }

  /** All that was said, and this. */
  predicate SaysOneMore(t: AdaptationTable, t': AdaptationTable, said: Said) {
    |t'| == |t| + 1 && t'[..|t|] == t && SaidBy(t'[|t|]) == said
  }

  /** An add says one thing more. */
  lemma AddSays(keys: KeyTable, master: Key, t: AdaptationTable, op: Op)
    requires op.Add? && Apply(keys, master, t, op).1.Pass?
    ensures SaysOneMore(t, Apply(keys, master, t, op).0,
                        Said(op.soul, op.category, Text(op.content), op.confidence, Some(op.origin), Current, op.now))
  {
  }

  /**
    A supersede says it for the old row's soul and category, with its confidence unless a new one is given, and
    marks that row alone.
   */
  lemma SupersedeSays(keys: KeyTable, master: Key, t: AdaptationTable, op: Op)
    requires Lineages(t) && op.Supersede? && Apply(keys, master, t, op).1.Pass?
    ensures var t', i := Apply(keys, master, t, op).0, Position(t, op.oldId);
      && |t'| == |t| + 1 && i < |t| && t[i].id == op.oldId && t[i].status.Current? && t'[|t|].id == op.id
      && t'[..|t|] == t[i := t[i].(status := Superseded, supersededBy := Some(op.id))]
      && SaidBy(t'[|t|]) == Said(t[i].soul, t[i].category, Text(op.content),
                                 if op.newConfidence.Some? then op.newConfidence.value else t[i].confidence,
                                 Some("supersede"), Current, op.now)
  {
    var i, row := SupersedeShape(keys, master, t, op);
    PositionIs(t, i);
  }

  lemma ApplyKeepsLineages(keys: KeyTable, master: Key, t: AdaptationTable, op: Op)
    requires Lineages(t)
    ensures Lineages(Apply(keys, master, t, op).0)
  {
    if Apply(keys, master, t, op).1.Pass? {
      if op.Supersede? {
        var i, row := SupersedeShape(keys, master, t, op);
        InsertKeepsLineages(t, row);
        forall j | 0 <= j < |t| { NewIdIsNotPointedTo(t, op.id, j); }
        PointKeepsLineages(t + [row], i);
      } else {
        InsertKeepsLineages(t, NewRow(keys, master, t, op).value);
      }
    }
  }

  // ---- following the pointers ----

  /** The row that a lineage ends in. */
  ghost function Tip(t: AdaptationTable, i: nat): (j: nat)
    requires Lineages(t) && i < |t|
    ensures i <= j < |t| && t[j].supersededBy.None?
    ensures t[j].soul == t[i].soul && t[j].category == t[i].category
    ensures !Loose(t[i]) ==> t[j].status.Current?
    decreases |t| - i
  {
    assert PointsForward(t, i);
    if t[i].supersededBy.None? then i else Tip(t, Position(t, t[i].supersededBy.value))
  }

  // ---- counting ----

  predicate Speaks(row: AdaptationRow, soul: SoulId, category: Category) {
    row.status.Current? && row.soul == soul && row.category == category
  }

  function Active(t: AdaptationTable, soul: SoulId, category: Category): nat {
    if t == [] then 0
    else Active(t[..|t| - 1], soul, category) + if Speaks(t[|t| - 1], soul, category) then 1 else 0
  }

  lemma ActiveSnoc(t: AdaptationTable, row: AdaptationRow, soul: SoulId, category: Category)
    ensures Active(t + [row], soul, category) == Active(t, soul, category) + if Speaks(row, soul, category) then 1 else 0
  {
    assert (t + [row])[..|t|] == t;
  }

  lemma {:induction false} ActiveUpdate(t: AdaptationTable, i: nat, row: AdaptationRow, soul: SoulId, category: Category)
    requires i < |t|
    ensures Active(t[i := row], soul, category) + (if Speaks(t[i], soul, category) then 1 else 0)
         == Active(t, soul, category) + if Speaks(row, soul, category) then 1 else 0
  {
    var n := |t| - 1;
    if i < n {
      ActiveUpdate(t[..n], i, row, soul, category);
      assert t[i := row][..n] == t[..n][i := row];
    } else {
      assert t[i := row][..n] == t[..n];
    }
  }

  /** The row an add or an import of an active row brings. */
  predicate Counts(op: Op, r: Outcome<AdaptationError>, soul: SoulId, category: Category) {
    r.Pass? && !op.Supersede? && op.soul == soul && op.category == category && (op.Import? ==> op.status.Current?)
  }

  lemma {:induction false} ApplyCounts(keys: KeyTable, master: Key, t: AdaptationTable, op: Op, soul: SoulId, category: Category)
    requires Lineages(t)
    ensures var (t', r) := Apply(keys, master, t, op);
            Active(t', soul, category) == Active(t, soul, category) + if Counts(op, r, soul, category) then 1 else 0
  {
    if Apply(keys, master, t, op).1.Pass? {
      if op.Supersede? {
        var i, row := SupersedeShape(keys, master, t, op);
        ActiveSnoc(t, row, soul, category);
        ActiveUpdate(t + [row], i, t[i].(status := Superseded, supersededBy := Some(op.id)), soul, category);
      } else {
        ActiveSnoc(t, NewRow(keys, master, t, op).value, soul, category);
      }
    }
  }

  // ---- runs ----

  /** The table after a run; `keys(i)` is the key table when operation `i` runs. */
  function Run(keys: nat -> KeyTable, master: Key, ops: seq<Op>): AdaptationTable {
    if ops == [] then []
    else
      var n := |ops| - 1;
      Apply(keys(n), master, Run(keys, master, ops[..n]), ops[n]).0
  }

  function Added(keys: nat -> KeyTable, master: Key, ops: seq<Op>, soul: SoulId, category: Category): nat {
    if ops == [] then 0
    else
      var n := |ops| - 1;
      Added(keys, master, ops[..n], soul, category)
      + if Counts(ops[n], Apply(keys(n), master, Run(keys, master, ops[..n]), ops[n]).1, soul, category) then 1 else 0
  }

  /** After every run: ids unique, pointers lead forward within soul and category, at most one predecessor. */
  lemma {:induction false} RunKeepsLineages(keys: nat -> KeyTable, master: Key, ops: seq<Op>)
    ensures Lineages(Run(keys, master, ops))
  {
    if ops != [] {
      var n := |ops| - 1;
      RunKeepsLineages(keys, master, ops[..n]);
      ApplyKeepsLineages(keys(n), master, Run(keys, master, ops[..n]), ops[n]);
    }
  }

  /**
    For every soul and category, the active rows are as many as the adds (and active imports): superseding
    keeps the number.
   */
  lemma {:induction false} ActiveEqualsAdded(keys: nat -> KeyTable, master: Key, ops: seq<Op>, soul: SoulId, category: Category)
    ensures Active(Run(keys, master, ops), soul, category) == Added(keys, master, ops, soul, category)
  {
    if ops != [] {
      var n := |ops| - 1;
      ActiveEqualsAdded(keys, master, ops[..n], soul, category);
      RunKeepsLineages(keys, master, ops[..n]);
      ApplyCounts(keys(n), master, Run(keys, master, ops[..n]), ops[n], soul, category);
    }
  }

  ghost predicate NoneLoose(t: AdaptationTable) {
    forall i :: 0 <= i < |t| ==> !Loose(t[i])
  }

  lemma {:induction false} OnlyImportsAreLoose(keys: nat -> KeyTable, master: Key, ops: seq<Op>)
    requires forall i :: 0 <= i < |ops| && ops[i].Import? ==> ops[i].status.Current?
    ensures NoneLoose(Run(keys, master, ops))
  {
    if ops != [] {
      OnlyImportsAreLoose(keys, master, ops[..|ops| - 1]);
    }
  }

  /** Following the pointers from any row ends in exactly one active row, unless the row came inactive with an import. */
  lemma {:induction false} EveryLineageEndsActive(keys: nat -> KeyTable, master: Key, ops: seq<Op>, i: nat)
    requires i < |Run(keys, master, ops)|
    ensures Lineages(Run(keys, master, ops))
    ensures var t := Run(keys, master, ops);
            && (t[Tip(t, i)].status.Current? <==> !Loose(t[i]))
            && t[Tip(t, i)].soul == t[i].soul && t[Tip(t, i)].category == t[i].category
    ensures (forall j :: 0 <= j < |ops| && ops[j].Import? ==> ops[j].status.Current?) ==>
            var t := Run(keys, master, ops); t[Tip(t, i)].status.Current?
  {
    RunKeepsLineages(keys, master, ops);
    if forall j :: 0 <= j < |ops| && ops[j].Import? ==> ops[j].status.Current? {
      OnlyImportsAreLoose(keys, master, ops);
    }
  }

  // ---- rows stay sealed ----

  predicate RowOk(row: AdaptationRow, dek: Result<Key, KeyError>) {
    && !row.category.OtherCategory? && !row.status.OtherLifecycle?
    && dek.Ok? && SealedFor(row.content, dek.value, row.soul, AdaptationDomain) && row.content.plain.Text?
  }

  ghost predicate RowsOk(keys: KeyTable, master: Key, t: AdaptationTable) {
    forall i :: 0 <= i < |t| ==> RowOk(t[i], TableDek(keys, master, t[i].soul))
  }

  lemma NewRowIsOk(keys: KeyTable, master: Key, t: AdaptationTable, op: Op)
    requires NewRow(keys, master, t, op).Ok? && Insert(t, NewRow(keys, master, t, op).value).Ok?
    ensures var row := NewRow(keys, master, t, op).value; RowOk(row, TableDek(keys, master, row.soul))
  {
  }

  lemma ApplyKeepsRowsOk(keys: KeyTable, master: Key, t: AdaptationTable, op: Op)
    requires RowsOk(keys, master, t)
    ensures RowsOk(keys, master, Apply(keys, master, t, op).0)
  {
    if Apply(keys, master, t, op).1.Pass? {
      NewRowIsOk(keys, master, t, op);
    }
  }
}
