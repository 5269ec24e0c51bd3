/**
  Memories and their review: what a soul remembers is shown only while it is confirmed, and a memory
  held back for an injection pattern becomes confirmed only by a decision.
 */
module Memories {
  import opened Prelude
  import opened PyText
  import opened Crypto
  import opened Store
  import opened KeyCache
  import opened Ordering
  import opened Untrusted

  const CONTENT_MAX_LEN := 8192
  const QUERY_MAX_LEN := 1024
  const TAGS_MAX_COUNT := 20
  const HISTORY_RECENT_LIMIT := 8

  /** The services a call depends on: the master key, the pattern detector and the embedding model. */
  datatype Services = Services(master: Key, detect: string -> seq<string>, embed: string -> seq<real>)

  datatype MemoryError =
    | TooLong
    | BadTags
    | BadAction
    | NotFound
    | WrongStatus(status: MemoryStatus)
    | NegativeLimit
    | Unreadable(error: KeyError)
    | Database(db: DbError)

  // ---- statements ----

  function SealMemory(content: string, soul: SoulId, dek: Key, nonce: Nonce): Sealed {
    Encrypt(Text(content), dek, nonce, Aad(soul, MemoryDomain))
  }

  predicate IdTaken(t: MemoryTable, id: nat) {
    exists i :: 0 <= i < |t| && t[i].id == id
  }

  function Insert(t: MemoryTable, row: MemoryRow): Result<MemoryTable, DbError> {
    if |row.embedding| != EMBEDDING_DIM then Err(WrongDimension)
    else if IdTaken(t, row.id) then Err(UniqueViolation)
    else Ok(t + [row])
  }

  function Position(t: MemoryTable, id: nat): (i: nat)
    ensures i <= |t| && (i < |t| ==> t[i].id == id) && forall j :: 0 <= j < i ==> t[j].id != id
  {
    if t == [] || t[0].id == id then 0 else 1 + Position(t[1..], id)
  }

  /** UPDATE ... SET status WHERE id. */
  function SetStatus(t: MemoryTable, id: nat, status: MemoryStatus): (r: MemoryTable)
    ensures |r| == |t|
  {
    seq(|t|, i requires 0 <= i < |t| => if t[i].id == id then t[i].(status := status) else t[i])
  }

  /** UPDATE ... SET last_recalled_at, recall_count + 1 WHERE id. */
  function Touch(t: MemoryTable, id: nat, now: Time): (r: MemoryTable)
    ensures |r| == |t|
  {
    seq(|t|, i requires 0 <= i < |t| =>
      if t[i].id == id then t[i].(lastRecalledAt := Some(now), recallCount := t[i].recallCount + 1) else t[i])
  }

  function TouchAll(t: MemoryTable, ids: seq<nat>, now: Time): (r: MemoryTable)
    ensures |r| == |t|
  {
    if ids == [] then t else Touch(TouchAll(t, ids[..|ids| - 1], now), ids[|ids| - 1], now)
  }

  // ---- the writers ----

  datatype Op =
    | Remember(soul: SoulId, content: string, tags: seq<string>, salience: real, client: Option<string>,
               id: nat, nonce: Nonce, now: Time)
    | Import(soul: SoulId, content: string, status: MemoryStatus, tags: seq<string>, flags: seq<string>, salience: real,
             client: Option<string>, embedding: seq<real>, id: nat, nonce: Nonce, now: Time)
    | Recalled(ids: seq<nat>, now: Time)  // the update that follows a recall
    | Decide(scope: Option<SoulId>, id: nat, action: string)  // in a tool's scope, or by the administrator
    | Forget(scope: Option<SoulId>, id: nat)

  predicate TagsOk(tags: seq<string>) {
    |tags| <= TAGS_MAX_COUNT && forall i :: 0 <= i < |tags| ==> IsIdentifier(tags[i])
  }

  function Remembered(keys: KeyTable, s: Services, op: Op): Result<MemoryRow, MemoryError>
    requires op.Remember?
  {
    if |op.content| > CONTENT_MAX_LEN then Err(TooLong)
    else if !TagsOk(op.tags) then Err(BadTags)
    else
      match TableDek(keys, s.master, op.soul)
      case Err(e) => Err(Unreadable(e))
      case Ok(dek) =>
        Ok(MemoryRow(op.id, op.soul, SealMemory(op.content, op.soul, dek, op.nonce), s.embed(op.content), op.now, None, 0,
                     op.client, op.salience, if s.detect(op.content) != [] then Pending else Confirmed, op.tags,
                     s.detect(op.content)))
  }

  function Imported(keys: KeyTable, s: Services, op: Op): Result<MemoryRow, MemoryError>
    requires op.Import?
  {
    match TableDek(keys, s.master, op.soul)
    case Err(e) => Err(Unreadable(e))
    case Ok(dek) =>
      Ok(MemoryRow(op.id, op.soul, SealMemory(op.content, op.soul, dek, op.nonce), op.embedding, op.now, None, 0,
                   op.client, op.salience, op.status, op.tags, op.flags))
  }

  function Added(t: MemoryTable, row: Result<MemoryRow, MemoryError>): (MemoryTable, Outcome<MemoryError>) {
    match row
    case Err(e) => (t, Fail(e))
    case Ok(row) =>
      match Insert(t, row)
      case Err(e) => (t, Fail(Database(e)))
      case Ok(t') => (t', Pass)
  }

  predicate InScope(row: MemoryRow, scope: Option<SoulId>) { scope.None? || row.soul == scope.value }

  /** The new status, when the row is there and its status allows the change. */
  function Review(t: MemoryTable, op: Op): Result<MemoryStatus, MemoryError>
    requires op.Decide? || op.Forget?
  {
    if op.Decide? && op.action != "confirm" && op.action != "reject" then Err(BadAction)
    else
      var i := Position(t, op.id);
      if i == |t| || !InScope(t[i], op.scope) then Err(NotFound)
      else if op.Decide? then
        if !t[i].status.Pending? then Err(WrongStatus(t[i].status))
        else Ok(if op.action == "confirm" then Confirmed else Rejected)
      else
        if !t[i].status.Confirmed? && !t[i].status.Pending? then Err(WrongStatus(t[i].status))
        else Ok(Forgotten)
  }

  function Apply(keys: KeyTable, s: Services, t: MemoryTable, op: Op): (MemoryTable, Outcome<MemoryError>) {
    if op.Remember? then Added(t, Remembered(keys, s, op))
    else if op.Import? then Added(t, Imported(keys, s, op))
    else if op.Recalled? then (TouchAll(t, op.ids, op.now), Pass)
    else
      match Review(t, op)
      case Err(e) => (t, Fail(e))
      case Ok(status) => (SetStatus(t, op.id, status), Pass)
  }

  method InsertMemory(db: Database, row: MemoryRow) returns (r: Outcome<DbError>)
    modifies db`memories
    ensures match Insert(old(db.memories), row)
      case Ok(t) => r == Pass && db.memories == t
      case Err(e) => r == Fail(e) && db.memories == old(db.memories)
  {
    if |row.embedding| != EMBEDDING_DIM {
      return Fail(WrongDimension);
    }
    if IdTaken(db.memories, row.id) {
      return Fail(UniqueViolation);
    }
    db.memories := db.memories + [row];
    return Pass;
  }

  method RememberThis(db: Database, s: Services, soul: SoulId, content: string, tags: seq<string>, salience: real,
                      client: Option<string>, id: nat, nonce: Nonce, now: Time) returns (r: Outcome<MemoryError>)
    modifies db`memories
    ensures (db.memories, r)
         == Apply(db.keys, s, old(db.memories), Remember(soul, content, tags, salience, client, id, nonce, now))
    ensures r.Pass? ==> RemembersOneMore(old(db.memories), db.memories, soul, content, tags, salience, client, now, s)
  {
    if |content| > CONTENT_MAX_LEN {
      return Fail(TooLong);
    }
    if !TagsOk(tags) {
      return Fail(BadTags);
    }
    var flags := s.detect(content);
    var status := if flags != [] then Pending else Confirmed;
    var dek := TableDek(db.keys, s.master, soul);
    if dek.Err? {
      return Fail(Unreadable(dek.error));
    }
    var sealed := SealMemory(content, soul, dek.value, nonce);
    var inserted := InsertMemory(db,
      MemoryRow(id, soul, sealed, s.embed(content), now, None, 0, client, salience, status, tags, flags));
    if inserted.Fail? {
      return Fail(Database(inserted.error));
    }
    RememberedRow(db.keys, s, old(db.memories), Remember(soul, content, tags, salience, client, id, nonce, now));
    return Pass;
  }

  method DecideProposal(db: Database, ghost s: Services, scope: Option<SoulId>, id: nat, action: string)
    returns (r: Outcome<MemoryError>)
    modifies db`memories
    ensures (db.memories, r) == Apply(db.keys, s, old(db.memories), Decide(scope, id, action))
  {
    if action != "confirm" && action != "reject" {
      return Fail(BadAction);
    }
    var i := Position(db.memories, id);
    if i == |db.memories| || !InScope(db.memories[i], scope) {
      return Fail(NotFound);
    }
    if !db.memories[i].status.Pending? {
      return Fail(WrongStatus(db.memories[i].status));
    }
    var newStatus := if action == "confirm" then Confirmed else Rejected;
    db.memories := SetStatus(db.memories, id, newStatus);
    return Pass;
  }

  method ForgetMemory(db: Database, ghost s: Services, scope: Option<SoulId>, id: nat) returns (r: Outcome<MemoryError>)
    modifies db`memories
    ensures (db.memories, r) == Apply(db.keys, s, old(db.memories), Forget(scope, id))
  {
    var i := Position(db.memories, id);
    if i == |db.memories| || !InScope(db.memories[i], scope) {
      return Fail(NotFound);
    }
    if !db.memories[i].status.Confirmed? && !db.memories[i].status.Pending? {
      return Fail(WrongStatus(db.memories[i].status));
    }
    db.memories := SetStatus(db.memories, id, Forgotten);
    return Pass;
  }

  // ---- the readers ----

  /** The positions a soul's reader may show. */
  function Shown(t: MemoryTable, soul: SoulId, since: Option<Time>): (at: set<nat>)
    ensures forall i :: i in at <==> 0 <= i < |t| && t[i].soul == soul && t[i].status.Confirmed?
                                     && (since.None? || t[i].createdAt >= since.value)
  {
    set i: nat | i < |t| && t[i].soul == soul && t[i].status.Confirmed? && (since.None? || t[i].createdAt >= since.value)
  }

  function Distance(t: MemoryTable, distance: seq<real> -> real): nat -> real {
    (i: nat) => if i < |t| then distance(t[i].embedding) else 0.0
  }

  function Newest(t: MemoryTable): nat -> real {
    (i: nat) => if i < |t| then -t[i].createdAt else 0.0
  }

  /** How ids, dates, saliences and counts print (`str`, `strftime("%Y-%m-%d")`, `:.1f`, `str`). */
  datatype Style = Style(id: nat -> string, day: Time -> string, tenth: real -> string, count: nat -> string)

  /** A memory under its header line. */
  function Entry(style: Style, row: MemoryRow, content: string): string {
    "[" + style.day(row.createdAt) + ", salience=" + style.tenth(row.salience) + "]\n" + content
  }

  function Entries(style: Style, t: MemoryTable, at: seq<nat>): (r: seq<string>)
    requires forall i :: 0 <= i < |at| ==> at[i] < |t|
    ensures |r| == |at|
  {
    seq(|at|, i requires 0 <= i < |at| => Entry(style, t[at[i]], TextOf(t[at[i]].content)))
  }

  function Names(style: Style, t: MemoryTable, at: seq<nat>): (r: seq<string>)
    requires forall i :: 0 <= i < |at| ==> at[i] < |t|
    ensures |r| == |at|
  {
    seq(|at|, i requires 0 <= i < |at| => style.id(t[at[i]].id))
  }

  /** The rows at the given positions, each under its header and wrapped as untrusted, with blank lines between. */
  function Passages(style: Style, t: MemoryTable, at: seq<nat>): string
    requires forall i :: 0 <= i < |at| ==> at[i] < |t|
  {
    Join("\n\n", WrapAll(MEMORY, Names(style, t, at), Entries(style, t, at)))
  }

  method ReadRows(t: MemoryTable, at: seq<nat>, soul: SoulId, dek: Key, style: Style)
    returns (r: Result<string, MemoryError>)
    requires forall i :: 0 <= i < |at| ==> at[i] < |t| && t[at[i]].soul == soul
    ensures r.Ok? ==> r.value == Passages(style, t, at)
    ensures r.Ok? <==> forall i :: 0 <= i < |at| ==> Opens(t[at[i]], dek)
  {
    var entries := [];
    for i := 0 to |at|
      invariant |entries| == i && forall j :: 0 <= j < i ==> entries[j] == Entry(style, t[at[j]], TextOf(t[at[j]].content))
      invariant forall j :: 0 <= j < i ==> Opens(t[at[j]], dek)
    {
      var row := t[at[i]];
      var plain := Decrypt(row.content, dek, Aad(soul, MemoryDomain));
      if plain.None? || !plain.value.Text? {
        return Err(Unreadable(BadTag));
      }
      entries := entries + [Entry(style, row, plain.value.text)];
    }
    assert entries == Entries(style, t, at);
    var text := Render(MEMORY, Names(style, t, at), entries);
    return Ok(text);
  }

  predicate Opens(row: MemoryRow, dek: Key) {
    Decrypt(row.content, dek, Aad(row.soul, MemoryDomain)).Some? && row.content.plain.Text?
  }

  function IdsAt(t: MemoryTable, at: seq<nat>): (ids: seq<nat>)
    requires forall i :: 0 <= i < |at| ==> at[i] < |t|
    ensures |ids| == |at| && forall i :: 0 <= i < |at| ==> ids[i] == t[at[i]].id
  {
    seq(|at|, i requires 0 <= i < |at| => t[at[i]].id)
  }

  method CountRecalls(db: Database, ids: seq<nat>, now: Time)
    modifies db`memories
    ensures db.memories == TouchAll(old(db.memories), ids, now)
  {
    for i := 0 to |ids|
      invariant db.memories == TouchAll(old(db.memories), ids[..i], now)
    {
      assert ids[..i + 1][..i] == ids[..i];
      db.memories := Touch(db.memories, ids[i], now);
    }
    assert ids[..|ids|] == ids;
  }

  const NO_MATCH := "No matching memories found."
  const NO_RECENT := "No recent memories found."

  /** The k nearest confirmed memories; each one shown is counted. */
  method Recall(db: Database, s: Services, style: Style, soul: SoulId, query: string, distance: seq<real> -> real, k: int,
                now: Time)
    returns (r: Result<string, MemoryError>, ghost at: seq<nat>)
    modifies db`memories
    ensures r.Err? ==> db.memories == old(db.memories)
    ensures r.Ok? ==>
      && |query| <= QUERY_MAX_LEN && k >= 0 && TableDek(db.keys, s.master, soul).Ok?
      && Nearest(at, Shown(old(db.memories), soul, None), Distance(old(db.memories), distance), k)
      && r.value == (if at == [] then NO_MATCH else Passages(style, old(db.memories), at))
      && db.memories == TouchAll(old(db.memories), IdsAt(old(db.memories), at), now)
    ensures RowsOk(db.keys, s.master, old(db.memories)) ==>
      (r.Ok? <==> |query| <= QUERY_MAX_LEN && k >= 0 && TableDek(db.keys, s.master, soul).Ok?)
  {
    at := [];
    if |query| > QUERY_MAX_LEN {
      return Err(TooLong), at;
    }
    var dek := TableDek(db.keys, s.master, soul);
    if dek.Err? {
      return Err(Unreadable(dek.error)), at;
    }
    if k < 0 {
      return Err(NegativeLimit), at;
    }
    var t := db.memories;
    var found := Take(Shown(t, soul, None), Distance(t, distance), k);
    at := found;
    if found == [] {
      return Ok(NO_MATCH), at;
    }
    AllOpen(db.keys, s.master, t, found, soul);
    var text := ReadRows(t, found, soul, dek.value, style);
    if text.Err? {
      return Err(text.error), at;
    }
    CountRecalls(db, IdsAt(t, found), now);
    return text, at;
  }

  method RecallRecent(db: Database, s: Services, style: Style, soul: SoulId, cutoff: Time, limit: int)
    returns (r: Result<string, MemoryError>, ghost at: seq<nat>)
    ensures r.Ok? ==>
      && limit >= 0 && TableDek(db.keys, s.master, soul).Ok?
      && Nearest(at, Shown(db.memories, soul, Some(cutoff)), Newest(db.memories), limit)
      && r.value == (if at == [] then NO_RECENT else Passages(style, db.memories, at))
    ensures RowsOk(db.keys, s.master, db.memories) ==> (r.Ok? <==> limit >= 0 && TableDek(db.keys, s.master, soul).Ok?)
  {
    at := [];
    var dek := TableDek(db.keys, s.master, soul);
    if dek.Err? {
      return Err(Unreadable(dek.error)), at;
    }
    if limit < 0 {
      return Err(NegativeLimit), at;
    }
    var found := Take(Shown(db.memories, soul, Some(cutoff)), Newest(db.memories), limit);
    at := found;
    if found == [] {
      return Ok(NO_RECENT), at;
    }
    AllOpen(db.keys, s.master, db.memories, found, soul);
    r := ReadRows(db.memories, found, soul, dek.value, style);
  }

  const BEGINNING := "Wir stehen am Anfang. Ich kenne dich aus dem, was du mir in meinen Self Core mitgegeben hast, "
                   + "aber wir haben noch keine gemeinsamen Erinnerungen. Das kommt."

  const SO_FAR := " so far, most recent first). Let these "
  const INFORM := "inform who you are together. "
  const WHEN := "When the conversation touches "
  const TOPICS := "a specific person, event, preference, "
  const RECALL := "or past topic, call recall(query) "
  const LOOK_UP := "to look up what is relevant."

  function Advice(): string { SO_FAR + INFORM + (WHEN + TOPICS) + (RECALL + LOOK_UP) }

  function Intro(style: Style, total: nat): string {
    "Shared history with this user (" + style.count(total) + (if total == 1 then " memory" else " memories") + Advice()
  }

  /** In messenger mode the text is introduced with the soul's name. */
  function Framed(messenger: Option<string>, text: string): string {
    if messenger.Some? then "Relationship context for the Soul named " + messenger.value + " with this user:\n\n" + text else text
  }

  /** The history overview: how many confirmed memories there are, and the most recent of them. */
  method Overview(db: Database, s: Services, style: Style, soul: SoulId, messenger: Option<string>)
    returns (r: Result<string, MemoryError>, ghost at: seq<nat>)
    ensures r.Ok? ==>
      var total := |Shown(db.memories, soul, None)|;
      && Nearest(at, Shown(db.memories, soul, None), Newest(db.memories), HISTORY_RECENT_LIMIT)
      && var told := if total == 0 then BEGINNING else
           "Shared history with this user (" + style.count(total) + (if total == 1 then " memory" else " memories") + Advice()
           + "\n\n" + Passages(style, db.memories, at);
         r.value ==
           if messenger.Some? then
             "Relationship context for the Soul named " + messenger.value + " with this user:\n\n" + told
           else told
    ensures RowsOk(db.keys, s.master, db.memories) ==> (r.Ok? <==> TableDek(db.keys, s.master, soul).Ok?)
  {
    at := [];
    var dek := TableDek(db.keys, s.master, soul);
    if dek.Err? {
      return Err(Unreadable(dek.error)), at;
    }
    var total := |Shown(db.memories, soul, None)|;
    if total == 0 {
      return Ok(Framed(messenger, BEGINNING)), at;
    }
    var found := Take(Shown(db.memories, soul, None), Newest(db.memories), HISTORY_RECENT_LIMIT);
    at := found;
    AllOpen(db.keys, s.master, db.memories, found, soul);
    var text := ReadRows(db.memories, found, soul, dek.value, style);
    if text.Err? {
      return Err(text.error), at;
    }
    return Ok(Framed(messenger, Intro(style, total) + "\n\n" + text.value)), at;
  }

  // ---- what every row satisfies ----

  predicate RowOk(row: MemoryRow, dek: Result<Key, KeyError>) {
    && |row.embedding| == EMBEDDING_DIM
    && dek.Ok? && SealedFor(row.content, dek.value, row.soul, MemoryDomain) && row.content.plain.Text?
  }

  ghost predicate RowsOk(keys: KeyTable, master: Key, t: MemoryTable) {
    forall i :: 0 <= i < |t| ==> RowOk(t[i], TableDek(keys, master, t[i].soul))
  }

  lemma AllOpen(keys: KeyTable, master: Key, t: MemoryTable, at: seq<nat>, soul: SoulId)
    requires forall i :: 0 <= i < |at| ==> at[i] < |t| && t[at[i]].soul == soul
    requires TableDek(keys, master, soul).Ok?
    ensures RowsOk(keys, master, t) ==> forall i :: 0 <= i < |at| ==> Opens(t[at[i]], TableDek(keys, master, soul).value)
  {
    if RowsOk(keys, master, t) {
      forall i | 0 <= i < |at| ensures Opens(t[at[i]], TableDek(keys, master, soul).value) {
        assert RowOk(t[at[i]], TableDek(keys, master, t[at[i]].soul));
      }
    }
  }

  lemma {:induction false} TouchKeeps(t: MemoryTable, ids: seq<nat>, now: Time, i: nat)
    requires i < |t|
    ensures var row := TouchAll(t, ids, now)[i];
            row == t[i].(lastRecalledAt := row.lastRecalledAt, recallCount := row.recallCount)
  {
    if ids != [] { TouchKeeps(t, ids[..|ids| - 1], now, i); }
  }

  lemma AddedRowOk(keys: KeyTable, s: Services, t: MemoryTable, op: Op)
    requires op.Remember? || op.Import?
    requires Apply(keys, s, t, op).1.Pass?
    ensures |Apply(keys, s, t, op).0| == |t| + 1 && Apply(keys, s, t, op).0[..|t|] == t
    ensures RowOk(Apply(keys, s, t, op).0[|t|], TableDek(keys, s.master, Apply(keys, s, t, op).0[|t|].soul))
  {
  }

  /** One more row: the new memory, held back exactly when a pattern is detected. */
  predicate RemembersOneMore(t: MemoryTable, t': MemoryTable, soul: SoulId, content: string, tags: seq<string>, salience: real,
                            client: Option<string>, now: Time, s: Services)
  {
    && |t'| == |t| + 1 && t'[..|t|] == t
    && var row := t'[|t|];
    && row.soul == soul && row.content.plain == Text(content) && row.embedding == s.embed(content)
    && row.tags == tags && row.salience == salience && row.client == client
    && row.createdAt == now && row.lastRecalledAt == None && row.recallCount == 0
    && row.flags == s.detect(content) && row.status == (if row.flags == [] then Confirmed else Pending)
  }

  lemma RememberedRow(keys: KeyTable, s: Services, t: MemoryTable, op: Op)
    requires op.Remember? && Apply(keys, s, t, op).1.Pass?
    ensures RemembersOneMore(t, Apply(keys, s, t, op).0, op.soul, op.content, op.tags, op.salience, op.client,
                             op.now, s)
  {
  }

  lemma ApplyKeepsRowsOk(keys: KeyTable, s: Services, t: MemoryTable, op: Op)
    requires RowsOk(keys, s.master, t)
    ensures RowsOk(keys, s.master, Apply(keys, s, t, op).0)
  {
    var t' := Apply(keys, s, t, op).0;
    if op.Remember? || op.Import? {
      if Apply(keys, s, t, op).1.Pass? {
        AddedRowOk(keys, s, t, op);
        assert forall i :: 0 <= i < |t| ==> t'[i] == t'[..|t|][i];
      }
    } else if op.Recalled? {
      forall i | 0 <= i < |t| { TouchKeeps(t, op.ids, op.now, i); }
    }
  }

  ghost predicate UniqueIds(t: MemoryTable) {
    forall i, j :: 0 <= i < j < |t| ==> t[i].id != t[j].id
  }

  // ---- the status of a row over a run ----

  /** pending to confirmed, rejected or forgotten; confirmed to forgotten. */
  predicate Moves(a: MemoryStatus, b: MemoryStatus) {
    || a == b
    || (a.Pending? && (b.Confirmed? || b.Rejected? || b.Forgotten?))
    || (a.Confirmed? && b.Forgotten?)
  }

  /** The same memory, possibly further along. */
  predicate Later(a: MemoryRow, b: MemoryRow) {
    && b == a.(status := b.status, lastRecalledAt := b.lastRecalledAt, recallCount := b.recallCount)
    && Moves(a.status, b.status)
  }

  predicate Confirms(op: Op, id: nat) { op.Decide? && op.id == id && op.action == "confirm" }

  lemma PositionIs(t: MemoryTable, i: nat)
    requires UniqueIds(t) && i < |t|
    ensures Position(t, t[i].id) == i
  {
    var p := Position(t, t[i].id);
    assert p <= i && t[p].id == t[i].id;
  }

  lemma ApplyMoves(keys: KeyTable, s: Services, t: MemoryTable, op: Op, i: nat)
    requires UniqueIds(t) && i < |t|
    ensures var (t', r) := Apply(keys, s, t, op);
            && i < |t'| && Later(t[i], t'[i])
            && (t'[i].status != t[i].status && t'[i].status.Confirmed? ==> r.Pass? && Confirms(op, t[i].id))
  {
    var (t', r) := Apply(keys, s, t, op);
    if op.Remember? || op.Import? {
      if r.Pass? {
        AddedRowOk(keys, s, t, op);
        assert t'[i] == t'[..|t|][i];
      }
    } else if op.Recalled? {
      TouchKeeps(t, op.ids, op.now, i);
    } else if r.Pass? && op.id == t[i].id {
      PositionIs(t, i);
    }
  }

  lemma ApplyAdds(keys: KeyTable, s: Services, t: MemoryTable, op: Op)
    requires UniqueIds(t)
    ensures UniqueIds(Apply(keys, s, t, op).0)
    ensures |t| <= |Apply(keys, s, t, op).0| <= |t| + 1
    ensures |Apply(keys, s, t, op).0| == |t| + 1 ==>
              (op.Import? || (op.Remember? && var row := Apply(keys, s, t, op).0[|t|]; row.flags != [] ==> row.status.Pending?))
  {
    if op.Recalled? {
      forall i | 0 <= i < |t| { TouchKeeps(t, op.ids, op.now, i); }
    }
  }

  // ---- which memories are stored ----

  /**
    Storing a memory is refused if and only if it is too long, its tags are not well-formed, its soul has no
    key, its vector has the wrong size or its id is taken; and then nothing changes.
   */
  lemma RememberedIff(keys: KeyTable, s: Services, t: MemoryTable, op: Op)
    requires op.Remember?
    ensures Apply(keys, s, t, op).1.Pass? <==>
      && |op.content| <= 8192 && |op.tags| <= 20 && (forall k :: 0 <= k < |op.tags| ==> IsIdentifier(op.tags[k]))
      && TableDek(keys, s.master, op.soul).Ok?
      && |s.embed(op.content)| == 1024 && (forall i :: 0 <= i < |t| ==> t[i].id != op.id)
    ensures Apply(keys, s, t, op).1.Fail? ==> Apply(keys, s, t, op).0 == t
  {
  }

  // ---- what a decision does ----

  /** Row `i` is the one with this id, in the scope. */
  predicate IsNamed(t: MemoryTable, scope: Option<SoulId>, id: nat, i: nat) {
    i < |t| && t[i].id == id && (scope.None? || t[i].soul == scope.value)
  }

  lemma SetStatusIs(t: MemoryTable, i: nat, status: MemoryStatus)
    requires UniqueIds(t) && i < |t|
    ensures SetStatus(t, t[i].id, status) == t[i := t[i].(status := status)]
  {
  }

  /**
    A decision is accepted if and only if it is one of the two and the memory is pending; confirming makes
    that memory confirmed and rejecting makes it rejected. Nothing else changes.
   */
  lemma DecisionIs(keys: KeyTable, s: Services, t: MemoryTable, scope: Option<SoulId>, id: nat, action: string, i: nat)
    requires UniqueIds(t) && IsNamed(t, scope, id, i)
    ensures var (t', r) := Apply(keys, s, t, Decide(scope, id, action));
      if t[i].status.Pending? && action == "confirm" then r == Pass && t' == t[i := t[i].(status := Confirmed)]
      else if t[i].status.Pending? && action == "reject" then r == Pass && t' == t[i := t[i].(status := Rejected)]
      else t' == t && r == Fail(if action == "confirm" || action == "reject" then WrongStatus(t[i].status) else BadAction)
  {
    PositionIs(t, i);
    SetStatusIs(t, i, Confirmed);
    SetStatusIs(t, i, Rejected);
  }

  /** Forgetting is accepted if and only if the memory is confirmed or pending, and makes that memory forgotten. */
  lemma ForgettingIs(keys: KeyTable, s: Services, t: MemoryTable, scope: Option<SoulId>, id: nat, i: nat)
    requires UniqueIds(t) && IsNamed(t, scope, id, i)
    ensures var (t', r) := Apply(keys, s, t, Forget(scope, id));
      if t[i].status.Confirmed? || t[i].status.Pending? then r == Pass && t' == t[i := t[i].(status := Forgotten)]
      else t' == t && r == Fail(WrongStatus(t[i].status))
  {
    PositionIs(t, i);
    SetStatusIs(t, i, Forgotten);
  }

  /** A memory that is not there, or not in the scope, can be neither decided nor forgotten. */
  lemma NobodyIsDecided(keys: KeyTable, s: Services, t: MemoryTable, op: Op)
    requires op.Forget? || (op.Decide? && (op.action == "confirm" || op.action == "reject"))
    requires UniqueIds(t) && forall i :: 0 <= i < |t| ==> !IsNamed(t, op.scope, op.id, i)
    ensures Apply(keys, s, t, op) == (t, Fail(NotFound))
  {
    var p := Position(t, op.id);
    if p < |t| { assert !IsNamed(t, op.scope, op.id, p); }
  }

  /** The table after a run; `keys(i)` is the key table when operation `i` runs. */
  function Run(keys: nat -> KeyTable, s: Services, ops: seq<Op>): MemoryTable {
    if ops == [] then []
    else
      var n := |ops| - 1;
      Apply(keys(n), s, Run(keys, s, ops[..n]), ops[n]).0
  }

  lemma {:induction false} RunKeepsIds(keys: nat -> KeyTable, s: Services, ops: seq<Op>)
    ensures UniqueIds(Run(keys, s, ops))
  {
    if ops != [] {
      RunKeepsIds(keys, s, ops[..|ops| - 1]);
      ApplyAdds(keys(|ops| - 1), s, Run(keys, s, ops[..|ops| - 1]), ops[|ops| - 1]);
    }
  }

  lemma LaterTwice(a: MemoryRow, b: MemoryRow, c: MemoryRow)
    requires Later(a, b) && Later(b, c)
    ensures Later(a, c)
  {
  }

  /** Over every run a memory keeps its place and its content, and its status only moves forward. */
  lemma {:induction false} StatusOnlyMovesForward(keys: nat -> KeyTable, s: Services, ops: seq<Op>, n: nat, i: nat)
    requires n <= |ops| && i < |Run(keys, s, ops[..n])|
    ensures i < |Run(keys, s, ops)| && Later(Run(keys, s, ops[..n])[i], Run(keys, s, ops)[i])
    decreases |ops|
  {
    if n == |ops| {
      assert ops[..n] == ops;
    } else {
      var m := |ops| - 1;
      assert ops[..m][..n] == ops[..n];
      StatusOnlyMovesForward(keys, s, ops[..m], n, i);
      RunKeepsIds(keys, s, ops[..m]);
      ApplyMoves(keys(m), s, Run(keys, s, ops[..m]), ops[m], i);
      LaterTwice(Run(keys, s, ops[..n])[i], Run(keys, s, ops[..m])[i], Run(keys, s, ops)[i]);
    }
  }

  /** The operation that inserted row `i`. */
  ghost function Origin(keys: nat -> KeyTable, s: Services, ops: seq<Op>, i: nat): (k: nat)
    requires i < |Run(keys, s, ops)|
    ensures k < |ops|
  {
    if i < |Run(keys, s, ops[..|ops| - 1])| then Origin(keys, s, ops[..|ops| - 1], i) else |ops| - 1
  }

  /** Operation `j` confirmed the memory with this id. */
  ghost predicate ConfirmedBy(keys: nat -> KeyTable, s: Services, ops: seq<Op>, j: nat, id: nat) {
    j < |ops| && Confirms(ops[j], id) && Apply(keys(j), s, Run(keys, s, ops[..j]), ops[j]).1.Pass?
  }

  lemma ConfirmedByPrefix(keys: nat -> KeyTable, s: Services, ops: seq<Op>, m: nat, j: nat, id: nat)
    requires m <= |ops| && ConfirmedBy(keys, s, ops[..m], j, id)
    ensures ConfirmedBy(keys, s, ops, j, id)
  {
    assert ops[..m][..j] == ops[..j] && ops[..m][j] == ops[j];
  }

  /** A flagged memory that did not come with an import is confirmed only if a decision after it was stored confirmed it. */
  lemma {:induction false} FlaggedWasDecided(keys: nat -> KeyTable, s: Services, ops: seq<Op>, i: nat) returns (j: nat)
    requires i < |Run(keys, s, ops)| && Run(keys, s, ops)[i].status.Confirmed? && Run(keys, s, ops)[i].flags != []
    requires !ops[Origin(keys, s, ops, i)].Import?
    ensures Origin(keys, s, ops, i) < j && ConfirmedBy(keys, s, ops, j, Run(keys, s, ops)[i].id)
  {
    var m := |ops| - 1;
    var before := Run(keys, s, ops[..m]);
    RunKeepsIds(keys, s, ops[..m]);
    ApplyAdds(keys(m), s, before, ops[m]);
    j := m;
    if i < |before| {
      ApplyMoves(keys(m), s, before, ops[m], i);
      if before[i].status.Confirmed? {
        assert ops[..m][Origin(keys, s, ops[..m], i)] == ops[Origin(keys, s, ops, i)];
        j := FlaggedWasDecided(keys, s, ops[..m], i);
        ConfirmedByPrefix(keys, s, ops, m, j, before[i].id);
      }
    }
  }

  /**
    Row `i` is a memory of the soul and confirmed now; it was pending or confirmed at every earlier
    moment, so never rejected or forgotten; and if it was flagged and not imported, some decision
    confirmed it.
   */
  ghost predicate WasReviewed(keys: nat -> KeyTable, s: Services, ops: seq<Op>, soul: SoulId, i: nat) {
    var t := Run(keys, s, ops);
    && i < |t| && t[i].soul == soul && t[i].status.Confirmed?
    && (forall n :: 0 <= n <= |ops| && i < |Run(keys, s, ops[..n])| ==>
          Run(keys, s, ops[..n])[i].status.Pending? || Run(keys, s, ops[..n])[i].status.Confirmed?)
    && (t[i].flags != [] && !ops[Origin(keys, s, ops, i)].Import? ==>
          exists j :: Origin(keys, s, ops, i) < j && ConfirmedBy(keys, s, ops, j, t[i].id))
  }

  /**
    Whatever a reader shows, by distance or by date and with any limit, was reviewed.
   */
  lemma {:induction false} ShownWasReviewed(keys: nat -> KeyTable, s: Services, ops: seq<Op>, soul: SoulId, since: Option<Time>,
                         rank: nat -> real, limit: nat, at: seq<nat>, a: nat)
    requires Nearest(at, Shown(Run(keys, s, ops), soul, since), rank, limit) && a < |at|
    ensures WasReviewed(keys, s, ops, soul, at[a])
  {
    var t, i := Run(keys, s, ops), at[a];
    assert i in Shown(t, soul, since);
    forall n | 0 <= n <= |ops| && i < |Run(keys, s, ops[..n])|
      ensures Run(keys, s, ops[..n])[i].status.Pending? || Run(keys, s, ops[..n])[i].status.Confirmed?
    {
      StatusOnlyMovesForward(keys, s, ops, n, i);
    }
    if t[i].flags != [] && !ops[Origin(keys, s, ops, i)].Import? {
      var j := FlaggedWasDecided(keys, s, ops, i);
    }
  }

  // ---- which memories a reader selects, said by the rows ----

  predicate Confirmable(t: MemoryTable, soul: SoulId, since: Option<Time>, i: nat) {
    i < |t| && t[i].soul == soul && t[i].status.Confirmed? && (since.None? || t[i].createdAt >= since.value)
  }

  /** At most `limit` confirmed memories of the soul, all of them if there is room, none twice. */
  ghost predicate Selects(at: seq<nat>, t: MemoryTable, soul: SoulId, since: Option<Time>, limit: nat) {
    && |at| <= limit && (forall a :: 0 <= a < |at| ==> Confirmable(t, soul, since, at[a]))
    && (forall a, b :: 0 <= a < b < |at| ==> at[a] != at[b])
    && (|at| < limit ==> forall p :: Confirmable(t, soul, since, p) ==> p in at)
  }

  lemma NearestSelects(at: seq<nat>, t: MemoryTable, soul: SoulId, since: Option<Time>, rank: nat -> real, limit: nat)
    requires Nearest(at, Shown(t, soul, since), rank, limit)
    ensures Selects(at, t, soul, since, limit)
  {
    forall a | 0 <= a < |at| ensures Confirmable(t, soul, since, at[a]) {
      assert at[a] in Shown(t, soul, since);
    }
    if |at| < limit {
      TakenAll(at, Shown(t, soul, since), rank, limit);
      forall p: nat | Confirmable(t, soul, since, p) ensures p in at { assert p in Shown(t, soul, since); }
    }
  }

  /** A recall selects the memories closest to the query, the closest first. */
  lemma RecallTakesClosest(at: seq<nat>, t: MemoryTable, soul: SoulId, distance: seq<real> -> real, k: nat)
    requires Nearest(at, Shown(t, soul, None), Distance(t, distance), k)
    ensures Selects(at, t, soul, None, k)
    ensures forall a, b :: 0 <= a < b < |at| ==> distance(t[at[a]].embedding) <= distance(t[at[b]].embedding)
    ensures forall a: nat, p: nat :: a < |at| && Confirmable(t, soul, None, p) && p !in at ==>
              distance(t[at[a]].embedding) <= distance(t[p].embedding)
  {
    NearestSelects(at, t, soul, None, Distance(t, distance), k);
    forall a: nat, p: nat | a < |at| && Confirmable(t, soul, None, p) && p !in at
      ensures distance(t[at[a]].embedding) <= distance(t[p].embedding)
    {
      assert p in Shown(t, soul, None);
      assert Distance(t, distance)(at[a]) <= Distance(t, distance)(p);
    }
    forall a, b | 0 <= a < b < |at| ensures distance(t[at[a]].embedding) <= distance(t[at[b]].embedding) {
      assert Distance(t, distance)(at[a]) <= Distance(t, distance)(at[b]);
    }
  }

  /** The other readers select the most recent memories, the latest first. */
  lemma RecentTakesLatest(at: seq<nat>, t: MemoryTable, soul: SoulId, since: Option<Time>, limit: nat)
    requires Nearest(at, Shown(t, soul, since), Newest(t), limit)
    ensures Selects(at, t, soul, since, limit)
    ensures forall a, b :: 0 <= a < b < |at| ==> t[at[a]].createdAt >= t[at[b]].createdAt
    ensures forall a: nat, p: nat :: a < |at| && Confirmable(t, soul, since, p) && p !in at ==>
              t[at[a]].createdAt >= t[p].createdAt
  {
    NearestSelects(at, t, soul, since, Newest(t), limit);
    forall a: nat, p: nat | a < |at| && Confirmable(t, soul, since, p) && p !in at ensures t[at[a]].createdAt >= t[p].createdAt {
      assert p in Shown(t, soul, since);
      assert Newest(t)(at[a]) <= Newest(t)(p);
    }
    forall a, b | 0 <= a < b < |at| ensures t[at[a]].createdAt >= t[at[b]].createdAt {
      assert Newest(t)(at[a]) <= Newest(t)(at[b]);
    }
  }

  // ---- what was confirmed is shown ----

  /** Operation `j` was accepted and forgot the memory with this id. */
  ghost predicate ForgottenBy(keys: nat -> KeyTable, s: Services, ops: seq<Op>, j: nat, id: nat) {
    j < |ops| && ops[j].Forget? && ops[j].id == id && Apply(keys(j), s, Run(keys, s, ops[..j]), ops[j]).1.Pass?
  }

  lemma ConfirmedStays(keys: KeyTable, s: Services, t: MemoryTable, op: Op, i: nat)
    requires UniqueIds(t) && i < |t| && t[i].status.Confirmed?
    requires !(op.Forget? && op.id == t[i].id && Apply(keys, s, t, op).1.Pass?)
    ensures var t' := Apply(keys, s, t, op).0; i < |t'| && t'[i].id == t[i].id && t'[i].soul == t[i].soul && t'[i].status.Confirmed?
  {
    ApplyMoves(keys, s, t, op, i);
    if op.Decide? || op.Forget? {
      if op.id == t[i].id { ConfirmedIsNotDecided(keys, s, t, op, i); }
    } else if op.Recalled? {
      TouchKeeps(t, op.ids, op.now, i);
    } else if Apply(keys, s, t, op).1.Pass? {
      AddedRowOk(keys, s, t, op);
      assert Apply(keys, s, t, op).0[i] == Apply(keys, s, t, op).0[..|t|][i];
    }
  }

  lemma ConfirmedIsNotDecided(keys: KeyTable, s: Services, t: MemoryTable, op: Op, i: nat)
    requires UniqueIds(t) && i < |t| && t[i].status.Confirmed? && (op.Decide? || op.Forget?) && op.id == t[i].id
    requires !(op.Forget? && Apply(keys, s, t, op).1.Pass?)
    ensures Apply(keys, s, t, op).0 == t
  {
    PositionIs(t, i);
  }

  lemma ForgottenByPrefix(keys: nat -> KeyTable, s: Services, ops: seq<Op>, m: nat, j: nat, id: nat)
    requires m <= |ops| && ForgottenBy(keys, s, ops[..m], j, id)
    ensures ForgottenBy(keys, s, ops, j, id)
  {
    assert ops[..m][..j] == ops[..j] && ops[..m][j] == ops[j];
  }

  /** Operations `n` and later do not forget the memory. */
  ghost predicate Unforgotten(keys: nat -> KeyTable, s: Services, ops: seq<Op>, n: nat, id: nat) {
    forall j :: n <= j < |ops| ==> !ForgottenBy(keys, s, ops, j, id)
  }

  lemma UnforgottenBefore(keys: nat -> KeyTable, s: Services, ops: seq<Op>, n: nat, m: nat, id: nat)
    requires m <= |ops| && Unforgotten(keys, s, ops, n, id)
    ensures Unforgotten(keys, s, ops[..m], n, id)
  {
    forall j | n <= j < m && ForgottenBy(keys, s, ops[..m], j, id) ensures false {
      ForgottenByPrefix(keys, s, ops, m, j, id);
      assert false;
    }
  }

  lemma LastKeepsConfirmed(keys: nat -> KeyTable, s: Services, ops: seq<Op>, i: nat)
    requires ops != [] && i < |Run(keys, s, ops[..|ops| - 1])|
    requires var row := Run(keys, s, ops[..|ops| - 1])[i];
             row.status.Confirmed? && !ForgottenBy(keys, s, ops, |ops| - 1, row.id)
    ensures var t, row := Run(keys, s, ops), Run(keys, s, ops[..|ops| - 1])[i];
            i < |t| && t[i].id == row.id && t[i].soul == row.soul && t[i].status.Confirmed?
  {
    var m := |ops| - 1;
    RunKeepsIds(keys, s, ops[..m]);
    ConfirmedStays(keys(m), s, Run(keys, s, ops[..m]), ops[m], i);
  }

  /** A memory that was once confirmed, by a decision or from the start, stays confirmed unless it is forgotten. */
  lemma {:induction false} ConfirmedUntilForgotten(keys: nat -> KeyTable, s: Services, ops: seq<Op>, n: nat, i: nat)
    requires n <= |ops| && i < |Run(keys, s, ops[..n])| && Run(keys, s, ops[..n])[i].status.Confirmed?
    requires Unforgotten(keys, s, ops, n, Run(keys, s, ops[..n])[i].id)
    ensures var t, row := Run(keys, s, ops), Run(keys, s, ops[..n])[i];
            i < |t| && t[i].id == row.id && t[i].soul == row.soul && t[i].status.Confirmed?
    decreases |ops|
  {
    if n == |ops| {
      assert ops[..n] == ops;
    } else {
      var m := |ops| - 1;
      assert ops[..m][..n] == ops[..n];
      UnforgottenBefore(keys, s, ops, n, m, Run(keys, s, ops[..n])[i].id);
      ConfirmedUntilForgotten(keys, s, ops[..m], n, i);
      LastKeepsConfirmed(keys, s, ops, i);
    }
  }

  /**
    After any run, a memory that an accepted decision confirmed, and that was not forgotten since, is among
    those its soul's readers select from.
   */
  lemma ConfirmedIsShown(keys: nat -> KeyTable, s: Services, ops: seq<Op>, j: nat, i: nat)
    requires j < |ops| && i < |Run(keys, s, ops[..j])| && ConfirmedBy(keys, s, ops, j, Run(keys, s, ops[..j])[i].id)
    requires forall k :: j < k < |ops| ==> !ForgottenBy(keys, s, ops, k, Run(keys, s, ops[..j])[i].id)
    ensures i in Shown(Run(keys, s, ops), Run(keys, s, ops[..j])[i].soul, None)
  {
    var t := Run(keys, s, ops[..j]);
    RunKeepsIds(keys, s, ops[..j]);
    assert ops[..j + 1][..j] == ops[..j] && ops[..j + 1][j] == ops[j];
    if IsNamed(t, ops[j].scope, ops[j].id, i) {
      DecisionIs(keys(j), s, t, ops[j].scope, ops[j].id, ops[j].action, i);
    } else {
      OnlyOneIsNamed(t, ops[j].scope, ops[j].id, i);
      NobodyIsDecided(keys(j), s, t, ops[j]);
    }
    ConfirmedUntilForgotten(keys, s, ops, j + 1, i);
  }

  lemma OnlyOneIsNamed(t: MemoryTable, scope: Option<SoulId>, id: nat, i: nat)
    requires UniqueIds(t) && i < |t| && t[i].id == id && !IsNamed(t, scope, id, i)
    ensures forall k :: 0 <= k < |t| ==> !IsNamed(t, scope, id, k)
  {
  }

  // ---- what a reader's text holds ----

  /** Ids print without markup, as UUIDs do. */
  ghost predicate PlainIds(style: Style) { forall n :: CleanId(style.id(n)) }

  /** The text holds one closing tag for each row; between them stand the rows' escaped entries, in order. */
  ghost predicate ScansAs(text: string, style: Style, t: MemoryTable, at: seq<nat>)
    requires forall i :: 0 <= i < |at| ==> at[i] < |t|
  {
    Scans(text, MEMORY, Names(style, t, at), Entries(style, t, at))
  }

  /** Entry `a` is the row's date and salience, and under them what was remembered. */
  ghost predicate ShowsRow(style: Style, t: MemoryTable, at: seq<nat>, a: nat)
    requires a < |at| && forall i :: 0 <= i < |at| ==> at[i] < |t|
  {
    var row := t[at[a]];
    && Names(style, t, at)[a] == style.id(row.id)
    && forall content :: row.content.plain == Text(content) ==>
         Entries(style, t, at)[a] == "[" + style.day(row.createdAt) + ", salience=" + style.tenth(row.salience) + "]\n" + content
  }

  lemma RowIsShown(style: Style, t: MemoryTable, at: seq<nat>, a: nat)
    requires a < |at| && forall i :: 0 <= i < |at| ==> at[i] < |t|
    ensures ShowsRow(style, t, at, a)
  {
  }

  lemma PassagesScan(lead: string, style: Style, t: MemoryTable, at: seq<nat>)
    requires IsLead(lead) && PlainIds(style) && at != [] && forall i :: 0 <= i < |at| ==> at[i] < |t|
    ensures ScansAs(lead + Passages(style, t, at), style, t, at)
  {
    forall i | 0 <= i < |at| ensures CleanId(Names(style, t, at)[i]) {
      IdIsClean(style, t[at[i]].id);
    }
    MemoryTagIsValid();
    ScanRecoversBodies(lead, MEMORY, Names(style, t, at), Entries(style, t, at));
  }

  lemma IdIsClean(style: Style, id: nat)
    requires PlainIds(style)
    ensures CleanId(style.id(id))
  {
  }

  /**
    After any run, scanning what a reader returns (after its introduction, if it has one) finds exactly
    the memories it selected, in order, each of them confirmed and, if flagged and not imported,
    confirmed by a decision: no content can pass for another memory or hide one.
   */
  lemma TextHoldsReviewed(keys: nat -> KeyTable, s: Services, ops: seq<Op>, soul: SoulId, since: Option<Time>,
                          rank: nat -> real, limit: nat, at: seq<nat>, lead: string, style: Style)
    requires Nearest(at, Shown(Run(keys, s, ops), soul, since), rank, limit) && at != []
    requires IsLead(lead) && PlainIds(style)
    ensures ScansAs(lead + Passages(style, Run(keys, s, ops), at), style, Run(keys, s, ops), at)
    ensures forall a :: 0 <= a < |at| ==> WasReviewed(keys, s, ops, soul, at[a])
    ensures forall a :: 0 <= a < |at| ==> ShowsRow(style, Run(keys, s, ops), at, a)
  {
    PassagesScan(lead, style, Run(keys, s, ops), at);
    forall a | 0 <= a < |at| ensures WasReviewed(keys, s, ops, soul, at[a]) {
      ShownWasReviewed(keys, s, ops, soul, since, rank, limit, at, a);
    }
    forall a | 0 <= a < |at| ensures ShowsRow(style, Run(keys, s, ops), at, a) {
      RowIsShown(style, Run(keys, s, ops), at, a);
    }
  }

  // -- the overview's introduction is such a lead, if the soul's name is --

  lemma NoAnglesConcat(a: string, b: string)
    requires NoAngles(a) && NoAngles(b)
    ensures NoAngles(a + b)
  {
  }

  lemma FirstAdvice()
    ensures NoAngles(SO_FAR) && NoAngles(INFORM)
  {
  }

  lemma SecondAdvice()
    ensures NoAngles(WHEN) && NoAngles(TOPICS)
  {
  }

  lemma ThirdAdvice()
    ensures NoAngles(RECALL) && NoAngles(LOOK_UP)
  {
  }

  lemma AdviceIsPlain()
    ensures NoAngles(Advice())
  {
    FirstAdvice();
    SecondAdvice();
    ThirdAdvice();
    NoAnglesConcat(SO_FAR, INFORM);
    NoAnglesConcat(WHEN, TOPICS);
    NoAnglesConcat(RECALL, LOOK_UP);
    NoAnglesConcat(SO_FAR + INFORM, WHEN + TOPICS);
    NoAnglesConcat(SO_FAR + INFORM + (WHEN + TOPICS), RECALL + LOOK_UP);
  }

  lemma IntroStartsPlain(count: string, total: nat)
    requires NoAngles(count)
    ensures NoAngles("Shared history with this user (" + count + (if total == 1 then " memory" else " memories"))
  {
  }

  lemma IntroIsPlain(style: Style, total: nat)
    requires NoAngles(style.count(total))
    ensures NoAngles(Intro(style, total))
  {
    AdviceIsPlain();
    IntroStartsPlain(style.count(total), total);
    NoAnglesConcat("Shared history with this user (" + style.count(total) + (if total == 1 then " memory" else " memories"),
                   Advice());
  }

  lemma FrameIsPlain(messenger: Option<string>, text: string)
    requires NoAngles(text) && (messenger.Some? ==> NoAngles(messenger.value))
    ensures NoAngles(Framed(messenger, text))
  {
    if messenger.Some? {
      var before, after := "Relationship context for the Soul named ", " with this user:\n\n";
      NoAnglesConcat(before, messenger.value);
      NoAnglesConcat(before + messenger.value, after);
      NoAnglesConcat(before + messenger.value + after, text);
    }
  }

  lemma FrameMoves(messenger: Option<string>, intro: string, rest: string)
    ensures Framed(messenger, intro + "\n\n" + rest) == Framed(messenger, intro + "\n\n") + rest
  {
  }

  lemma FrameIsLead(messenger: Option<string>, intro: string)
    requires NoAngles(intro) && (messenger.Some? ==> NoAngles(messenger.value))
    ensures IsLead(Framed(messenger, intro + "\n\n"))
  {
    FrameIsPlain(messenger, intro + "\n\n");
  }

  lemma IntroducedScans(intro: string, messenger: Option<string>, style: Style, t: MemoryTable, at: seq<nat>)
    requires NoAngles(intro) && PlainIds(style) && (messenger.Some? ==> NoAngles(messenger.value))
    requires at != [] && forall i :: 0 <= i < |at| ==> at[i] < |t|
    ensures ScansAs(Framed(messenger, intro + "\n\n" + Passages(style, t, at)), style, t, at)
  {
    FrameIsLead(messenger, intro);
    FrameMoves(messenger, intro, Passages(style, t, at));
    PassagesScan(Framed(messenger, intro + "\n\n"), style, t, at);
  }

  /** Scanning an overview finds exactly the memories it selected, if the soul's name holds no angle bracket. */
  lemma OverviewScans(style: Style, t: MemoryTable, at: seq<nat>, total: nat, messenger: Option<string>)
    requires PlainIds(style) && NoAngles(style.count(total)) && (messenger.Some? ==> NoAngles(messenger.value))
    requires at != [] && forall i :: 0 <= i < |at| ==> at[i] < |t|
    ensures ScansAs(Framed(messenger, Intro(style, total) + "\n\n" + Passages(style, t, at)), style, t, at)
  {
    IntroIsPlain(style, total);
    IntroducedScans(Intro(style, total), messenger, style, t, at);
  }

  // ---- what a recall counts ----

  lemma {:induction false} TouchCounts(t: MemoryTable, ids: seq<nat>, now: Time, i: nat)
    requires i < |t|
    ensures TouchAll(t, ids, now)[i].recallCount == t[i].recallCount + multiset(ids)[t[i].id]
  {
    if ids != [] {
      var n := |ids| - 1;
      TouchCounts(t, ids[..n], now, i);
      TouchKeeps(t, ids[..n], now, i);
      assert ids == ids[..n] + [ids[n]];
    }
  }

  lemma {:induction false} OnceInDistinct(ids: seq<nat>, k: nat)
    requires k < |ids| && forall i, j :: 0 <= i < j < |ids| ==> ids[i] != ids[j]
    ensures multiset(ids)[ids[k]] == 1
  {
    var n := |ids| - 1;
    assert ids == ids[..n] + [ids[n]];
    if k < n {
      OnceInDistinct(ids[..n], k);
    } else {
      assert ids[n] !in ids[..n];
    }
  }

  /** A recall counts each memory it shows once, and no other; rows of other souls stay as they are. */
  lemma RecallCountsShown(t: MemoryTable, soul: SoulId, rank: nat -> real, limit: nat, at: seq<nat>, now: Time, i: nat)
    requires UniqueIds(t) && Nearest(at, Shown(t, soul, None), rank, limit) && i < |t|
    ensures var t' := TouchAll(t, IdsAt(t, at), now);
            && t'[i] == if i in at then t[i].(lastRecalledAt := Some(now), recallCount := t[i].recallCount + 1) else t[i]
  {
    var ids := IdsAt(t, at);
    TouchCounts(t, ids, now, i);
    DistinctIds(t, at);
    if i in at {
      var k :| 0 <= k < |at| && at[k] == i;
      OnceInDistinct(ids, k);
      assert ids[k] == t[i].id;
      TouchedAt(t, ids, now, i);
      TouchKeeps(t, ids, now, i);
    } else {
      NotTouched(t, ids, now, i);
    }
  }

  lemma DistinctIds(t: MemoryTable, at: seq<nat>)
    requires UniqueIds(t) && forall i :: 0 <= i < |at| ==> at[i] < |t|
    requires forall i, j :: 0 <= i < j < |at| ==> at[i] != at[j]
    ensures forall i, j :: 0 <= i < j < |at| ==> IdsAt(t, at)[i] != IdsAt(t, at)[j]
    ensures forall i :: 0 <= i < |t| && i !in at ==> t[i].id !in IdsAt(t, at)
  {
    forall i, j | 0 <= i < j < |at| ensures IdsAt(t, at)[i] != IdsAt(t, at)[j] {
      assert t[at[i]].id != t[at[j]].id;
    }
    forall i | 0 <= i < |t| && i !in at ensures t[i].id !in IdsAt(t, at) {
      forall k | 0 <= k < |at| ensures IdsAt(t, at)[k] != t[i].id {
        assert at[k] != i;
      }
    }
  }

  lemma {:induction false} TouchedAt(t: MemoryTable, ids: seq<nat>, now: Time, i: nat)
    requires i < |t| && t[i].id in ids
    ensures TouchAll(t, ids, now)[i].lastRecalledAt == Some(now)
  {
    var n := |ids| - 1;
    TouchKeeps(t, ids[..n], now, i);
    if ids[n] != t[i].id { TouchedAt(t, ids[..n], now, i); }
  }

  lemma {:induction false} NotTouched(t: MemoryTable, ids: seq<nat>, now: Time, i: nat)
    requires i < |t| && t[i].id !in ids
    ensures TouchAll(t, ids, now)[i] == t[i]
  {
    if ids != [] {
      assert ids[|ids| - 1] in ids;
      NotTouched(t, ids[..|ids| - 1], now, i);
    }
  }
}
