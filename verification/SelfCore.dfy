/** Self Core versioning with every writer (web save, CLI edit, CLI import, bundle import) in one transaction. */
module SelfCore {
  import opened Prelude
  import opened Crypto
  import opened Store

  // Each writer reads the current version, archives the current row under that version and stores the
  // new content one version up; `Bump` is that protocol said once.

  datatype SaveError =
    | Conflict(current: int)      // HTTP 409: the stored version has moved on
    | NoChanges                   // the editor left the text as it was
    | Database(error: DbError)

  datatype BundleCore = BundleCore(version: Option<int>, content: Option<string>, history: seq<BundleVersion>)

  datatype BundleVersion = BundleVersion(version: int, content: string, note: Option<string>)

  // ---- what the statements mean ----

  function SealCore(content: string, soul: SoulId, dek: Key, nonce: Nonce): Sealed {
    Encrypt(Text(content), dek, nonce, Aad(soul, SelfCoreDomain))
  }

  function Bump(l: Ledger, soul: SoulId, sealed: Sealed, user: string, note: Option<string>): Result<Ledger, DbError> {
    if soul !in l.cores then
      Ok(l.(cores := l.cores[soul := CoreRow(sealed, 1, user)]))
    else
      var row := l.cores[soul];
      if VersionKey(soul, row.version) in l.history then Err(UniqueViolation)
      else Ok(Ledger(l.cores[soul := CoreRow(sealed, row.version + 1, user)],
                     l.history[VersionKey(soul, row.version) := HistoryRow(row.content, row.user, note)]))
  }

  function VersionOf(l: Ledger, soul: SoulId): int {
    if soul in l.cores then l.cores[soul].version else 0
  }

  /** Archived versions lie strictly below the current one; no row means no history. */
  ghost predicate SoulInv(l: Ledger, soul: SoulId) {
    && (soul in l.cores ==> l.cores[soul].version >= 1)
    && forall v :: VersionKey(soul, v) in l.history ==> soul in l.cores && v < l.cores[soul].version
  }

  ghost predicate LedgerInv(l: Ledger) {
    forall soul: SoulId :: SoulInv(l, soul)
  }

  // ---- the statements shared by the writers ----

  /** INSERT INTO history SELECT the current row. Selects, and inserts, nothing when there is no row. */
  method ArchiveCurrent(db: Database, soul: SoulId, note: Option<string>) returns (r: Outcome<DbError>)
    modifies db`history
    ensures r.Pass? <==> !(soul in db.cores && VersionKey(soul, db.cores[soul].version) in old(db.history))
    ensures r.Fail? ==> r.error == UniqueViolation && db.history == old(db.history)
    ensures r.Pass? ==> db.history == if soul in db.cores
      then old(db.history)[VersionKey(soul, db.cores[soul].version) := HistoryRow(db.cores[soul].content, db.cores[soul].user, note)]
      else old(db.history)
  {
    if soul in db.cores {
      var row := db.cores[soul];
      if VersionKey(soul, row.version) in db.history {
        return Fail(UniqueViolation);
      }
      db.history := db.history[VersionKey(soul, row.version) := HistoryRow(row.content, row.user, note)];
    }
    return Pass;
  }

  method InsertCore(db: Database, soul: SoulId, row: CoreRow) returns (r: Outcome<DbError>)
    modifies db`cores
    ensures r.Pass? <==> soul !in old(db.cores)
    ensures r.Fail? ==> r.error == UniqueViolation && db.cores == old(db.cores)
    ensures r.Pass? ==> db.cores == old(db.cores)[soul := row]
  {
    if soul in db.cores {
      return Fail(UniqueViolation);
    }
    db.cores := db.cores[soul := row];
    return Pass;
  }

  /** UPDATE ... WHERE soul_id: touches no row when there is none. */
  method UpdateCore(db: Database, soul: SoulId, row: CoreRow)
    modifies db`cores
    ensures db.cores == if soul in old(db.cores) then old(db.cores)[soul := row] else old(db.cores)
  {
    if soul in db.cores {
      db.cores := db.cores[soul := row];
    }
  }

  /** Archive, then overwrite with the version the caller read plus one. */
  method ArchiveAndUpdate(db: Database, soul: SoulId, sealed: Sealed, readVersion: int, user: string, note: Option<string>)
    returns (r: Result<int, SaveError>)
    requires soul in db.cores && readVersion == db.cores[soul].version
    modifies db`cores, db`history
    ensures match Bump(old(db.CoreLedger()), soul, sealed, user, note)
      case Ok(l) => r == Ok(readVersion + 1) && db.CoreLedger() == l
      case Err(e) => r == Err(Database(e)) && db.CoreLedger() == old(db.CoreLedger())
  {
    var archived := ArchiveCurrent(db, soul, note);
    if archived.Fail? {
      return Err(Database(archived.error));
    }
    UpdateCore(db, soul, CoreRow(sealed, readVersion + 1, user));
    return Ok(readVersion + 1);
  }

  // ---- the writers ----

  method SaveSelfCore(db: Database, soul: SoulId, content: string, note: string, expectedVersion: int,
                      user: string, dek: Key, nonce: Nonce) returns (r: Result<int, SaveError>)
    modifies db`cores, db`history
    ensures (db.CoreLedger(), r) == Write(old(db.CoreLedger()), WebSave(soul, content, note, expectedVersion, user, dek, nonce))
  {
    var sealed := SealCore(content, soul, dek, nonce);
    var currentVersion := if soul in db.cores then db.cores[soul].version else 0;
    if expectedVersion != currentVersion {
      return Err(Conflict(currentVersion));
    }
    if soul !in db.cores {
      var inserted := InsertCore(db, soul, CoreRow(sealed, 1, user));
      return Ok(1);
    }
    r := ArchiveAndUpdate(db, soul, sealed, currentVersion, user, NoteOrNull(note));
  }

  /** The editor is a function from the text shown to the text saved; `template` is shown when there is no row. */
  method SelfCoreEdit(db: Database, soul: SoulId, edited: string, template: string, user: string, dek: Key, nonce: Nonce)
    returns (r: Result<int, SaveError>)
    modifies db`cores, db`history
    ensures (db.CoreLedger(), r) == Write(old(db.CoreLedger()), CliEdit(soul, edited, template, user, dek, nonce))
  {
    var currentYaml, currentVersion := template, 0;
    if soul in db.cores {
      currentYaml := Shown(db.cores[soul].content, template);
      currentVersion := db.cores[soul].version;
    }
    if edited == currentYaml {
      return Err(NoChanges);
    }
    var sealed := SealCore(edited, soul, dek, nonce);
    if currentVersion == 0 {
      var inserted := InsertCore(db, soul, CoreRow(sealed, currentVersion + 1, user));
      return if inserted.Fail? then Err(Database(inserted.error)) else Ok(currentVersion + 1);
    }
    r := ArchiveAndUpdate(db, soul, sealed, currentVersion, user, None);
  }

  method SelfCoreImport(db: Database, soul: SoulId, content: string, note: string, user: string, dek: Key, nonce: Nonce)
    returns (r: Result<int, SaveError>)
    modifies db`cores, db`history
    ensures (db.CoreLedger(), r) == Write(old(db.CoreLedger()), CliImport(soul, content, note, user, dek, nonce))
  {
    var sealed := SealCore(content, soul, dek, nonce);
    if soul in db.cores {
      r := ArchiveAndUpdate(db, soul, sealed, db.cores[soul].version, user, NoteOrNull(note));
    } else {
      var inserted := InsertCore(db, soul, CoreRow(sealed, 1, user));
      return Ok(1);
    }
  }

  function NoteOrNull(note: string): Option<string> { if note == "" then None else Some(note) }

  /** The text the CLI decrypts into the editor. */
  function Shown(s: Sealed, template: string): string { if s.plain.Text? then s.plain.text else template }

  // ---- the bundle import ----

  function MaxVersion(h: seq<BundleVersion>): int {
    if h == [] then 0
    else if |h| == 1 then h[0].version
    else Max(MaxVersion(h[..|h| - 1]), h[|h| - 1].version)
  }

  function Max(x: int, y: int): int { if x >= y then x else y }

  function StartVersion(c: BundleCore): int {
    Max(Max(if c.version.Some? && c.version.value != 0 then c.version.value else 1, MaxVersion(c.history) + 1), 1)
  }

  ghost predicate DistinctVersions(h: seq<BundleVersion>) {
    forall i, j :: 0 <= i < j < |h| ==> h[i].version != h[j].version
  }

  predicate HasVersion(h: seq<BundleVersion>, v: int) {
    exists i :: 0 <= i < |h| && h[i].version == v
  }

  /** No two rows of `h` share a version, and none is archived for the soul yet. */
  ghost predicate Insertable(history: map<VersionKey, HistoryRow>, soul: SoulId, h: seq<BundleVersion>) {
    DistinctVersions(h) && forall v :: HasVersion(h, v) ==> VersionKey(soul, v) !in history
  }

  lemma InsertableSnoc(history: map<VersionKey, HistoryRow>, soul: SoulId, h: seq<BundleVersion>)
    requires h != []
    ensures var n := |h| - 1;
            Insertable(history, soul, h) <==>
            Insertable(history, soul, h[..n]) && VersionKey(soul, h[n].version) !in history && !HasVersion(h[..n], h[n].version)
  {
    var n := |h| - 1;
    forall v { HasVersionSnoc(h, v); }
  }

  lemma {:induction false} InsertablePrefix(history: map<VersionKey, HistoryRow>, soul: SoulId, h: seq<BundleVersion>, n: nat)
    requires Insertable(history, soul, h) && n <= |h|
    ensures Insertable(history, soul, h[..n])
    decreases |h|
  {
    if n < |h| {
      InsertableSnoc(history, soul, h);
      InsertablePrefix(history, soul, h[..|h| - 1], n);
      assert h[..|h| - 1][..n] == h[..n];
    } else {
      assert h[..n] == h;
    }
  }

  /** The history rows a bundle brings, the `i`-th sealed with the nonce `draw(i)`. */
  function Brought(h: seq<BundleVersion>, soul: SoulId, dek: Key, user: string,
                   draw: nat -> Nonce): map<VersionKey, HistoryRow> {
    if h == [] then map[]
    else
      var n := |h| - 1;
      Brought(h[..n], soul, dek, user, draw)[VersionKey(soul, h[n].version) := BroughtRow(h[n], soul, dek, user, draw(n))]
  }

  function BroughtRow(b: BundleVersion, soul: SoulId, dek: Key, user: string, nonce: Nonce): HistoryRow {
    HistoryRow(SealCore(b.content, soul, dek, nonce), user, b.note)
  }

  lemma HasVersionSnoc(h: seq<BundleVersion>, v: int)
    requires h != []
    ensures HasVersion(h, v) <==> HasVersion(h[..|h| - 1], v) || h[|h| - 1].version == v
  {
    var n := |h| - 1;
    if HasVersion(h[..n], v) {
      var i :| 0 <= i < n && h[..n][i].version == v;
      assert h[i].version == v;
    }
    if HasVersion(h, v) && h[n].version != v {
      var i :| 0 <= i < |h| && h[i].version == v;
      assert h[..n][i].version == v;
    }
  }

  lemma {:induction false} BroughtKeys(h: seq<BundleVersion>, soul: SoulId, dek: Key, user: string,
                                       draw: nat -> Nonce, k: VersionKey)
    ensures k in Brought(h, soul, dek, user, draw) <==> k.soul == soul && HasVersion(h, k.version)
  {
    if h != [] {
      BroughtKeys(h[..|h| - 1], soul, dek, user, draw, k);
      HasVersionSnoc(h, k.version);
    }
  }

  lemma {:induction false} MaxVersionBounds(h: seq<BundleVersion>)
    ensures forall i :: 0 <= i < |h| ==> h[i].version <= MaxVersion(h)
  {
    if |h| > 1 {
      MaxVersionBounds(h[..|h| - 1]);
    }
  }

  ghost function Bundle(l: Ledger, soul: SoulId, c: BundleCore, user: string, dek: Key, nonce: Nonce, draw: nat -> Nonce):
    Result<Ledger, DbError>
  {
    if c.content.None? || c.content.value == "" then Ok(l)
    else
      var sealed := SealCore(c.content.value, soul, dek, nonce);
      if soul in l.cores then Bump(l, soul, sealed, user, Some("import merge"))
      else if !Insertable(l.history, soul, c.history) then Err(UniqueViolation)
      else
        Ok(Ledger(l.cores[soul := CoreRow(sealed, StartVersion(c), user)],
                  l.history + Brought(c.history, soul, dek, user, draw)))
  }

  method InsertHistory(db: Database, soul: SoulId, h: seq<BundleVersion>, user: string, dek: Key, draw: nat -> Nonce)
    returns (r: Outcome<DbError>)
    modifies db`history
    ensures r.Pass? <==> Insertable(old(db.history), soul, h)
    ensures r.Pass? ==> db.history == old(db.history) + Brought(h, soul, dek, user, draw)
    ensures r.Fail? ==> r.error == UniqueViolation
  {
    for i := 0 to |h|
      invariant Insertable(old(db.history), soul, h[..i])
      invariant db.history == old(db.history) + Brought(h[..i], soul, dek, user, draw)
    {
      var k := VersionKey(soul, h[i].version);
      BroughtKeys(h[..i], soul, dek, user, draw, k);
      assert h[..i + 1][..i] == h[..i];
      InsertableSnoc(old(db.history), soul, h[..i + 1]);
      if k in db.history {
        if Insertable(old(db.history), soul, h) { InsertablePrefix(old(db.history), soul, h, i + 1); }
        return Fail(UniqueViolation);
      }
      db.history := db.history[k := BroughtRow(h[i], soul, dek, user, draw(i))];
    }
    assert h[..|h|] == h;
    return Pass;
  }

  /** The Self Core part of `import_soul`; an abort rolls the transaction back. */
  method ImportCore(db: Database, soul: SoulId, c: BundleCore, user: string, dek: Key, nonce: Nonce, draw: nat -> Nonce)
    returns (r: Outcome<DbError>)
    modifies db`cores, db`history
    ensures match Bundle(old(db.CoreLedger()), soul, c, user, dek, nonce, draw)
      case Ok(l) => r == Pass && db.CoreLedger() == l
      case Err(e) => r == Fail(e) && db.CoreLedger() == old(db.CoreLedger())
  {
    if c.content.None? || c.content.value == "" {
      return Pass;
    }
    var cores, history := db.cores, db.history;
    var sealed := SealCore(c.content.value, soul, dek, nonce);
    if soul in db.cores {
      var saved := ArchiveAndUpdate(db, soul, sealed, db.cores[soul].version, user, Some("import merge"));
      return if saved.Ok? then Pass else Fail(UniqueViolation);
    }
    var inserted := InsertCore(db, soul, CoreRow(sealed, StartVersion(c), user));
    r := InsertHistory(db, soul, c.history, user, dek, draw);
    if r.Fail? {
      db.cores, db.history := cores, history;
    }
  }

  // ---- runs ----

  datatype Op =
    | WebSave(soul: SoulId, content: string, note: string, expected: int, user: string, dek: Key, nonce: Nonce)
    | CliEdit(soul: SoulId, content: string, template: string, user: string, dek: Key, nonce: Nonce)
    | CliImport(soul: SoulId, content: string, note: string, user: string, dek: Key, nonce: Nonce)
    | BundleImport(soul: SoulId, core: BundleCore, user: string, dek: Key, nonce: Nonce, draw: nat -> Nonce)

  function Saved(l: Ledger, soul: SoulId, r: Result<Ledger, DbError>): (Ledger, Result<int, SaveError>) {
    match r
    case Ok(l') => (l', Ok(VersionOf(l', soul)))
    case Err(e) => (l, Err(Database(e)))
  }

  /** One committed or aborted transaction. */
  ghost function Write(l: Ledger, op: Op): (Ledger, Result<int, SaveError>) {
    match op
    case WebSave(soul, content, note, expected, user, dek, nonce) =>
      if expected != VersionOf(l, soul) then (l, Err(Conflict(VersionOf(l, soul))))
      else Saved(l, soul, Bump(l, soul, SealCore(content, soul, dek, nonce), user, NoteOrNull(note)))
    case CliEdit(soul, content, template, user, dek, nonce) =>
      if content == (if soul in l.cores then Shown(l.cores[soul].content, template) else template) then (l, Err(NoChanges))
      else if soul in l.cores && l.cores[soul].version == 0 then (l, Err(Database(UniqueViolation)))  // taken for a first save
      else Saved(l, soul, Bump(l, soul, SealCore(content, soul, dek, nonce), user, None))
    case CliImport(soul, content, note, user, dek, nonce) =>
      Saved(l, soul, Bump(l, soul, SealCore(content, soul, dek, nonce), user, NoteOrNull(note)))
    case BundleImport(soul, core, user, dek, nonce, draw) =>
      if core.content.None? || core.content.value == "" then (l, Err(NoChanges))
      else Saved(l, soul, Bundle(l, soul, core, user, dek, nonce, draw))
  }

  ghost function Run(ops: seq<Op>): Ledger {
    if ops == [] then Ledger(map[], map[])
    else Write(Run(ops[..|ops| - 1]), ops[|ops| - 1]).0
  }

  // ---- the invariant over every run ----

  lemma WriteKeepsInv(l: Ledger, op: Op, soul: SoulId)
    requires SoulInv(l, soul)
    ensures SoulInv(Write(l, op).0, soul)
  {
    if op.BundleImport? && op.soul == soul && soul !in l.cores {
      MaxVersionBounds(op.core.history);
      forall v { BroughtKeys(op.core.history, soul, op.dek, op.user, op.draw, VersionKey(soul, v)); }
    } else if op.BundleImport? {
      forall v { BroughtKeys(op.core.history, op.soul, op.dek, op.user, op.draw, VersionKey(soul, v)); }
    }
  }

  /** After every run, archived versions lie strictly below the current one, and no row means no history. */
  lemma {:induction false} RunKeepsInv(ops: seq<Op>)
    ensures LedgerInv(Run(ops))
  {
    forall soul: SoulId ensures SoulInv(Run(ops), soul) {
      RunKeepsSoulInv(ops, soul);
    }
  }

  lemma {:induction false} RunKeepsSoulInv(ops: seq<Op>, soul: SoulId)
    ensures SoulInv(Run(ops), soul)
  {
    if ops != [] {
      RunKeepsSoulInv(ops[..|ops| - 1], soul);
      WriteKeepsInv(Run(ops[..|ops| - 1]), ops[|ops| - 1], soul);
    }
  }

  /** The UNIQUE constraint fires exactly for a bundle that carries two rows of one version to a soul without a Self Core. */
  lemma UniqueFiresOnlyOnRepeatedVersions(ops: seq<Op>, op: Op)
    ensures Write(Run(ops), op).1 == Err(Database(UniqueViolation)) <==>
            && op.BundleImport? && op.core.content.Some? && op.core.content.value != ""
            && op.soul !in Run(ops).cores && !DistinctVersions(op.core.history)
  {
    RunKeepsSoulInv(ops, op.soul);
  }

  // ---- which saves are accepted, and what they store ----

  /** A web save that saw the current version, an edit that changes the text, every CLI import, a bundle that brings content. */
  ghost predicate Accepts(l: Ledger, op: Op) {
    match op
    case WebSave(soul, _, _, expected, _, _, _) => expected == VersionOf(l, soul)
    case CliEdit(soul, content, template, _, _, _) =>
      content != if soul in l.cores then TextOf(l.cores[soul].content) else template
    case CliImport(_, _, _, _, _, _) => true
    case BundleImport(soul, core, _, _, _, _) =>
      core.content.Some? && core.content.value != "" && (soul in l.cores || DistinctVersions(core.history))
  }

  function Given(op: Op): string
    requires op.BundleImport? ==> op.core.content.Some?
  {
    if op.BundleImport? then op.core.content.value else op.content
  }

  function NoteBy(op: Op): Option<string> {
    if op.CliEdit? then None
    else if op.BundleImport? then Some("import merge")
    else if op.note == "" then None
    else Some(op.note)
  }

  /** The least version that is at least 1 and the bundle's own, and above every version the bundle archives. */
  ghost predicate IsStart(v: int, c: BundleCore) {
    && v >= 1 && (c.version.Some? ==> v >= c.version.value) && (forall i :: 0 <= i < |c.history| ==> v > c.history[i].version)
    && (v == 1 || c.version == Some(v) || exists i :: 0 <= i < |c.history| && v == c.history[i].version + 1)
  }

  predicate OpensAs(s: Sealed, dek: Key, soul: SoulId, text: string) {
    Decrypt(s, dek, Aad(soul, SelfCoreDomain)) == Some(Text(text))
  }

  /** The history of a bundle is archived with it, version by version. */
  ghost predicate BringsHistory(l: Ledger, l': Ledger, op: Op)
    requires op.BundleImport?
  {
    && (forall k :: k in l'.history <==> k in l.history || (k.soul == op.soul && HasVersion(op.core.history, k.version)))
    && (forall k :: k in l.history ==> l'.history[k] == l.history[k])
    && forall i :: 0 <= i < |op.core.history| ==> BringsVersion(l', op, op.core.history[i])
  }

  predicate BringsVersion(l': Ledger, op: Op, h: BundleVersion)
    requires op.BundleImport?
  {
    var k := VersionKey(op.soul, h.version);
    && k in l'.history && OpensAs(l'.history[k].content, op.dek, op.soul, h.content)
    && l'.history[k].user == op.user && l'.history[k].note == h.note
  }

  /** The given content is the current row; what was current is archived under its version; nothing else changes. */
  ghost predicate Stores(l: Ledger, l': Ledger, op: Op)
    requires op.BundleImport? ==> op.core.content.Some?
  {
    && op.soul in l'.cores && l'.cores == l.cores[op.soul := l'.cores[op.soul]]
    && OpensAs(l'.cores[op.soul].content, op.dek, op.soul, Given(op)) && l'.cores[op.soul].user == op.user
    && if op.soul in l.cores then
         var row := l.cores[op.soul];
         && l'.cores[op.soul].version == row.version + 1
         && l'.history == l.history[VersionKey(op.soul, row.version) := HistoryRow(row.content, row.user, NoteBy(op))]
       else if op.BundleImport? then IsStart(l'.cores[op.soul].version, op.core) && BringsHistory(l, l', op)
       else l'.cores[op.soul].version == 1 && l'.history == l.history
  }

  ghost predicate AllText(l: Ledger) { forall soul :: soul in l.cores ==> l.cores[soul].content.plain.Text? }

  lemma {:induction false} RunKeepsText(ops: seq<Op>)
    ensures AllText(Run(ops))
  {
    if ops != [] { RunKeepsText(ops[..|ops| - 1]); }
  }

  lemma {:induction false} MaxIsReached(h: seq<BundleVersion>)
    requires h != []
    ensures exists i :: 0 <= i < |h| && h[i].version == MaxVersion(h)
  {
    var n := |h| - 1;
    assert h[n].version == h[n].version;
    if n > 0 {
      MaxIsReached(h[..n]);
      var i :| 0 <= i < n && h[..n][i].version == MaxVersion(h[..n]);
      assert h[i].version == MaxVersion(h[..n]);
    }
  }

  lemma StartIsLeast(c: BundleCore)
    ensures IsStart(StartVersion(c), c)
  {
    MaxVersionBounds(c.history);
    if c.history != [] {
      MaxIsReached(c.history);
    }
  }

  lemma {:induction false} BroughtAt(h: seq<BundleVersion>, soul: SoulId, dek: Key, user: string, draw: nat -> Nonce, i: nat)
    requires i < |h| && DistinctVersions(h)
    ensures var rows, k := Brought(h, soul, dek, user, draw), VersionKey(soul, h[i].version);
            k in rows && rows[k] == BroughtRow(h[i], soul, dek, user, draw(i))
  {
    var n := |h| - 1;
    if i < n {
      assert h[n].version != h[i].version;
      BroughtAt(h[..n], soul, dek, user, draw, i);
    }
  }

  lemma FirstBundleStores(l: Ledger, op: Op)
    requires op.BundleImport? && op.soul !in l.cores && SoulInv(l, op.soul) && Accepts(l, op)
    ensures Stores(l, Write(l, op).0, op)
  {
    var l', h := Write(l, op).0, op.core.history;
    StartIsLeast(op.core);
    forall k { BroughtKeys(h, op.soul, op.dek, op.user, op.draw, k); }
    forall i | 0 <= i < |h| ensures BringsVersion(l', op, h[i]) {
      BroughtAt(h, op.soul, op.dek, op.user, op.draw, i);
    }
  }

  lemma AcceptedStores(l: Ledger, op: Op)
    requires SoulInv(l, op.soul) && AllText(l)
    ensures Write(l, op).1.Ok? <==> Accepts(l, op)
    ensures Accepts(l, op) ==> Stores(l, Write(l, op).0, op)
  {
    if op.BundleImport? && op.soul !in l.cores && Accepts(l, op) { FirstBundleStores(l, op); }
  }

  /**
    After every run, for every writer: which saves are accepted, what an accepted one stores and the version
    it answers, and that a refused one says why and changes nothing.
   */
  lemma SaveIsAcceptedIff(ops: seq<Op>, op: Op)
    ensures var l, (l', r) := Run(ops), Write(Run(ops), op);
      if Accepts(l, op) then Stores(l, l', op) && r == Ok(l'.cores[op.soul].version)
      else
        && l' == l && r.Err?
        && r.error == (if op.WebSave? then Conflict(VersionOf(l, op.soul))
                       else if op.CliEdit? || op.core.content.None? || op.core.content.value == "" then NoChanges
                       else Database(UniqueViolation))
  {
    RunKeepsSoulInv(ops, op.soul);
    RunKeepsText(ops);
    AcceptedStores(Run(ops), op);
  }

  lemma WriteKeepsArchive(l: Ledger, op: Op, k: VersionKey)
    requires k in l.history
    ensures k in Write(l, op).0.history && Write(l, op).0.history[k] == l.history[k]
  {
    if op.BundleImport? {
      BroughtKeys(op.core.history, op.soul, op.dek, op.user, op.draw, k);
    }
  }

  /** Archived rows are never changed or removed. */
  lemma {:induction false} ArchivedForever(ops: seq<Op>, n: nat, k: VersionKey)
    requires n <= |ops| && k in Run(ops[..n]).history
    ensures k in Run(ops).history && Run(ops).history[k] == Run(ops[..n]).history[k]
    decreases |ops|
  {
    if n == |ops| {
      assert ops[..n] == ops;
    } else {
      var m := |ops| - 1;
      assert ops[..m][..n] == ops[..n];
      ArchivedForever(ops[..m], n, k);
      WriteKeepsArchive(Run(ops[..m]), ops[m], k);
    }
  }

  // ---- what the history holds ----

  /** The content an operation tries to store. */
  function SealedBy(op: Op): Sealed
    requires op.BundleImport? ==> op.core.content.Some?
  {
    SealCore(if op.BundleImport? then op.core.content.value else op.content, op.soul, op.dek, op.nonce)
  }

  /**
    What has been saved for a soul: `saves[i]` under version `start + i`. A Self Core created by a
    bundle starts at the bundle's version, on top of the archive it brought.
   */
  datatype Chronicle = Chronicle(start: int, brought: map<VersionKey, HistoryRow>, saves: seq<Sealed>)

  ghost function Succeeds(ops: seq<Op>, i: nat): bool
    requires i < |ops|
  {
    Write(Run(ops[..i]), ops[i]).1.Ok?
  }

  ghost function ChronicleOf(ops: seq<Op>, soul: SoulId): Chronicle {
    if ops == [] then Chronicle(1, map[], [])
    else
      var n := |ops| - 1;
      var c, op := ChronicleOf(ops[..n], soul), ops[n];
      if op.soul != soul || !Succeeds(ops, n) then c
      else if op.BundleImport? && c.saves == [] then
        Chronicle(StartVersion(op.core), Brought(op.core.history, soul, op.dek, op.user, op.draw), [SealedBy(op)])
      else c.(saves := c.saves + [SealedBy(op)])
  }

  ghost predicate Records(l: Ledger, soul: SoulId, c: Chronicle) {
    && (soul in l.cores <==> c.saves != [])
    && (soul in l.cores ==> l.cores[soul].version == c.start + |c.saves| - 1 && l.cores[soul].content == c.saves[|c.saves| - 1])
    && (c.saves == [] ==> c == Chronicle(1, map[], []))
    && (forall v :: VersionKey(soul, v) in l.history <==> VersionKey(soul, v) in c.brought || c.start <= v < c.start + |c.saves| - 1)
    && (forall v :: VersionKey(soul, v) in c.brought ==>
          v < c.start && l.history[VersionKey(soul, v)] == c.brought[VersionKey(soul, v)])
    && (forall v {:trigger VersionKey(soul, v)} :: c.start <= v < c.start + |c.saves| - 1 ==>
          l.history[VersionKey(soul, v)].content == c.saves[v - c.start])
  }

  lemma FirstSaveRecords(l: Ledger, op: Op)
    requires Records(l, op.soul, Chronicle(1, map[], [])) && Write(l, op).1.Ok?
    ensures Records(Write(l, op).0, op.soul,
      if op.BundleImport? then
        Chronicle(StartVersion(op.core), Brought(op.core.history, op.soul, op.dek, op.user, op.draw), [SealedBy(op)])
      else Chronicle(1, map[], [SealedBy(op)]))
  {
    if op.BundleImport? {
      MaxVersionBounds(op.core.history);
      forall v { BroughtKeys(op.core.history, op.soul, op.dek, op.user, op.draw, VersionKey(op.soul, v)); }
    }
  }

  /** On an existing Self Core every writer that succeeds is the one bump. */
  lemma SuccessIsBump(l: Ledger, op: Op) returns (note: Option<string>)
    requires op.soul in l.cores && Write(l, op).1.Ok?
    ensures Bump(l, op.soul, SealedBy(op), op.user, note) == Ok(Write(l, op).0)
  {
    match op
    case WebSave(_, _, n, _, _, _, _) => note := NoteOrNull(n);
    case CliEdit(_, _, _, _, _, _) => note := None;
    case CliImport(_, _, n, _, _, _) => note := NoteOrNull(n);
    case BundleImport(_, _, _, _, _, _) => note := Some("import merge");
  }

  lemma NextSaveRecords(l: Ledger, soul: SoulId, c: Chronicle, sealed: Sealed, user: string, note: Option<string>)
    requires Records(l, soul, c) && c.saves != [] && Bump(l, soul, sealed, user, note).Ok?
    ensures Records(Bump(l, soul, sealed, user, note).value, soul, c.(saves := c.saves + [sealed]))
  {
  }

  lemma OtherSaveRecords(l: Ledger, op: Op, soul: SoulId, c: Chronicle)
    requires Records(l, soul, c) && (op.soul != soul || !Write(l, op).1.Ok?)
    ensures Records(Write(l, op).0, soul, c)
  {
    if op.BundleImport? {
      forall v { BroughtKeys(op.core.history, op.soul, op.dek, op.user, op.draw, VersionKey(soul, v)); }
    }
  }

  /** History and current row are exactly what the saves of the run put there. */
  lemma {:induction false} HistoryIsChronicle(ops: seq<Op>, soul: SoulId)
    ensures Records(Run(ops), soul, ChronicleOf(ops, soul))
  {
    if ops != [] {
      var n := |ops| - 1;
      var l, c, op := Run(ops[..n]), ChronicleOf(ops[..n], soul), ops[n];
      HistoryIsChronicle(ops[..n], soul);
      if op.soul != soul || !Succeeds(ops, n) {
        OtherSaveRecords(l, op, soul, c);
      } else if c.saves == [] {
        FirstSaveRecords(l, op);
      } else {
        var note := SuccessIsBump(l, op);
        NextSaveRecords(l, soul, c, SealedBy(op), op.user, note);
      }
    }
  }

  /** A soul never imported has exactly the versions 1 to current - 1 archived, with the contents saved under those numbers. */
  lemma {:induction false} NeverImportedStartsAtOne(ops: seq<Op>, soul: SoulId)
    requires forall i :: 0 <= i < |ops| && ops[i].soul == soul ==> !ops[i].BundleImport?
    ensures var c := ChronicleOf(ops, soul); c.start == 1 && c.brought == map[]
    ensures forall v :: VersionKey(soul, v) in Run(ops).history <==> 1 <= v < VersionOf(Run(ops), soul)
  {
    HistoryIsChronicle(ops, soul);
    if ops != [] {
      NeverImportedStartsAtOne(ops[..|ops| - 1], soul);
    }
  }

  // ---- optimistic locking ----

  function Loaded(l: Ledger, soul: SoulId, slug: string, dek: Key): (string, int) {
    if soul !in l.cores then ("# Self Core for " + slug + "\n", 0)
    else
      match Decrypt(l.cores[soul].content, dek, Aad(soul, SelfCoreDomain))
      case Some(Text(text)) => (text, l.cores[soul].version)
      case _ => ("[decryption failed]", l.cores[soul].version)
  }

  method LoadSelfCore(db: Database, soul: SoulId, slug: string, dek: Key) returns (content: string, version: int)
    ensures (content, version) == Loaded(db.CoreLedger(), soul, slug, dek)
  {
    if soul !in db.cores {
      return "# Self Core for " + slug + "\n", 0;
    }
    var row := db.cores[soul];
    var plain := Decrypt(row.content, dek, Aad(soul, SelfCoreDomain));
    if plain.Some? && plain.value.Text? {
      return plain.value.text, row.version;
    }
    return "[decryption failed]", row.version;
  }

  /** Some save of the soul at position `i` or later succeeded. */
  ghost predicate SavedSince(ops: seq<Op>, i: nat, soul: SoulId) {
    i < |ops| &&
    var n := |ops| - 1;
    (ops[n].soul == soul && Succeeds(ops, n)) || SavedSince(ops[..n], i, soul)
  }

  lemma WriteTellsVersion(l: Ledger, op: Op, soul: SoulId)
    requires SoulInv(l, soul)
    ensures var (l', r) := Write(l, op);
            if op.soul == soul && r.Ok? then VersionOf(l, soul) < VersionOf(l', soul)
            else SameRow(l, l', soul)
  {
  }

  ghost predicate SameRow(l: Ledger, l': Ledger, soul: SoulId) {
    && (soul in l.cores <==> soul in l'.cores)
    && (soul in l.cores ==> l'.cores[soul] == l.cores[soul])
  }

  /** Since ledger `a` a save succeeded, or its row is as it was. */
  ghost predicate Tells(a: Ledger, l: Ledger, soul: SoulId, saved: bool) {
    if saved then VersionOf(a, soul) < VersionOf(l, soul) else SameRow(a, l, soul)
  }

  lemma TellsOneMore(a: Ledger, l: Ledger, op: Op, soul: SoulId, saved: bool)
    requires SoulInv(l, soul) && Tells(a, l, soul, saved)
    ensures Tells(a, Write(l, op).0, soul, saved || (op.soul == soul && Write(l, op).1.Ok?))
  {
    WriteTellsVersion(l, op, soul);
  }

  lemma {:induction false} VersionTellsSaves(ops: seq<Op>, i: nat, soul: SoulId)
    requires i <= |ops|
    ensures Tells(Run(ops[..i]), Run(ops), soul, SavedSince(ops, i, soul))
    decreases |ops|
  {
    if i == |ops| {
      assert ops[..i] == ops;
    } else {
      var n := |ops| - 1;
      assert ops[..n][..i] == ops[..i];
      VersionTellsSaves(ops[..n], i, soul);
      RunKeepsSoulInv(ops[..n], soul);
      TellsOneMore(Run(ops[..i]), Run(ops[..n]), ops[n], soul, SavedSince(ops[..n], i, soul));
    }
  }

  /** The last successful save of the soul is the one at position `i`. */
  ghost predicate LastSave(ops: seq<Op>, soul: SoulId, i: nat) {
    i < |ops| && ops[i].soul == soul && Succeeds(ops, i) && !SavedSince(ops, i + 1, soul)
  }

  /** The page shows the text of the last successful save, if the key still opens it, and the version it got. */
  lemma PageShowsLastSave(ops: seq<Op>, soul: SoulId, i: nat, slug: string)
    requires LastSave(ops, soul, i)
    ensures ops[i].BundleImport? ==> ops[i].core.content.Some?
    ensures Write(Run(ops[..i]), ops[i]).1.Ok?
         && Loaded(Run(ops), soul, slug, ops[i].dek) == (Given(ops[i]), Write(Run(ops[..i]), ops[i]).1.value)
  {
    SaveIsAcceptedIff(ops[..i], ops[i]);
    assert ops[..i + 1][..i] == ops[..i];
    VersionTellsSaves(ops, i + 1, soul);
  }

  /** Before the first save the page shows a placeholder, at version zero. */
  lemma {:induction false} PageBeforeFirstSave(ops: seq<Op>, soul: SoulId, slug: string, dek: Key)
    requires !SavedSince(ops, 0, soul)
    ensures Loaded(Run(ops), soul, slug, dek) == ("# Self Core for " + slug + "\n", 0)
  {
    VersionTellsSaves(ops, 0, soul);
    assert ops[..0] == [];
  }

  lemma LoadedVersion(l: Ledger, soul: SoulId, slug: string, dek: Key)
    ensures Loaded(l, soul, slug, dek).1 == VersionOf(l, soul)
  {
  }

  lemma WebSaveOutcome(l: Ledger, save: Op)
    requires save.WebSave? && SoulInv(l, save.soul)
    ensures Write(l, save).1.Ok? <==> save.expected == VersionOf(l, save.soul)
  {
  }

  /**
    A web save is accepted exactly when no other save of that soul succeeded since the editor
    loaded the page, and what it then overwrites is the row that was loaded.
   */
  lemma {:induction false} WebSaveSeesEveryChange(ops: seq<Op>, i: nat, save: Op, slug: string, key: Key)
    requires i <= |ops| && save.WebSave?
    requires save.expected == Loaded(Run(ops[..i]), save.soul, slug, key).1
    ensures Write(Run(ops), save).1.Ok? <==> !SavedSince(ops, i, save.soul)
    ensures Write(Run(ops), save).1.Ok? ==> SameRow(Run(ops[..i]), Run(ops), save.soul)
  {
    LoadedVersion(Run(ops[..i]), save.soul, slug, key);
    VersionTellsSaves(ops, i, save.soul);
    RunKeepsSoulInv(ops, save.soul);
    WebSaveOutcome(Run(ops), save);
  }
}
