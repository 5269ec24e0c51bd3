/**
  Row level security. A tool session sets one tenant and one soul and then runs statements; the policy
  lets a statement see, change and create only rows of that scope.
 */
module Isolation {
  import opened Prelude

  // A tool is any program: its next statement may depend on every answer so far. The statements filter
  // by whatever they like, by row id alone in particular.

  datatype Scope = Scope(tenant: nat, soul: nat)

  /** Primary key: row ids are unique in a table across all scopes. */
  datatype RowKey = RowKey(table: string, id: nat)

  /** `key` is what the table's UNIQUE constraint adds to tenant and soul, if it has one. */
  datatype Row = Row(scope: Scope, key: Option<string>, columns: string)

  type Store = map<RowKey, Row>

  datatype Statement =
    | Select(table: string, matches: (nat, Row) -> bool)
    | Update(table: string, matches: (nat, Row) -> bool, rewrite: Row -> Row)
    | Insert(table: string, id: nat, row: Row)
    | Upsert(table: string, id: nat, row: Row, rewrite: Row -> Row)

  datatype Answer =
    | Found(rows: map<RowKey, Row>)
    | Changed(keys: set<RowKey>)
    | Denied    // the row would violate the policy
    | Conflict  // the row would violate a UNIQUE or PRIMARY KEY constraint

  predicate IsError(a: Answer) { a.Denied? || a.Conflict? }

  // ---- one statement under the policy ----

  /** The rows the policy shows. */
  function Visible(s: Store, scope: Scope): Store {
    map k | k in s && s[k].scope == scope :: s[k]
  }

  function Hidden(s: Store, scope: Scope): Store {
    map k | k in s && s[k].scope != scope :: s[k]
  }

  function Matching(s: Store, scope: Scope, table: string, matches: (nat, Row) -> bool): set<RowKey> {
    set k | k in s && s[k].scope == scope && k.table == table && matches(k.id, s[k])
  }

  function RowsAt(s: Store, at: set<RowKey>): Store
    requires at <= s.Keys
  {
    map k | k in at :: s[k]
  }

  /** The rows that hold the unique key of `row`; the key includes the scope. */
  function SameKey(s: Store, table: string, row: Row): set<RowKey> {
    set k | k in s && k.table == table && s[k].scope == row.scope && s[k].key == row.key && row.key.Some?
  }

  /** An update keeps the unique key. */
  function Rewritten(row: Row, rewrite: Row -> Row): Row { rewrite(row).(key := row.key) }

  function RewriteAll(s: Store, at: set<RowKey>, rewrite: Row -> Row): Store {
    map k | k in s :: if k in at then Rewritten(s[k], rewrite) else s[k]
  }

  /** Change the rows at `at`, unless one of them would leave the scope. */
  function Change(s: Store, scope: Scope, at: set<RowKey>, rewrite: Row -> Row): (Store, Answer)
    requires at <= s.Keys
  {
    if exists k :: k in at && rewrite(s[k]).scope != scope then (s, Denied) else (RewriteAll(s, at, rewrite), Changed(at))
  }

  function Create(s: Store, scope: Scope, k: RowKey, row: Row): (Store, Answer) {
    if row.scope != scope then (s, Denied)
    else if k in s || SameKey(s, k.table, row) != {} then (s, Conflict)
    else (s[k := row], Changed({k}))
  }

  function Execute(s: Store, scope: Scope, st: Statement): (Store, Answer) {
    match st
    case Select(table, matches) => (s, Found(RowsAt(s, Matching(s, scope, table, matches))))
    case Update(table, matches, rewrite) => Change(s, scope, Matching(s, scope, table, matches), rewrite)
    case Insert(table, id, row) => Create(s, scope, RowKey(table, id), row)
    case Upsert(table, id, row, rewrite) =>
      if row.scope != scope then (s, Denied)
      else if SameKey(s, table, row) != {} then Change(s, scope, SameKey(s, table, row), rewrite)
      else Create(s, scope, RowKey(table, id), row)
  }

  // ---- a session ----

  type Tool = seq<Answer> -> Option<Statement>

  datatype Session = Session(store: Store, answers: seq<Answer>)

  /** At most `n` statements in one transaction; an error ends it and rolls it back. */
  function Run(s: Store, scope: Scope, tool: Tool, n: nat): Session {
    if n == 0 then Session(s, [])
    else
      var before := Run(s, scope, tool, n - 1);
      if Ended(before.answers) then before
      else
        match tool(before.answers)
        case None => before
        case Some(st) =>
          var (store, answer) := Execute(before.store, scope, st);
          Session(if IsError(answer) then s else store, before.answers + [answer])
  }

  predicate Ended(answers: seq<Answer>) { answers != [] && IsError(answers[|answers| - 1]) }

  /** The ids the database generates for this tool are not in use in other scopes. */
  ghost predicate FreshIds(tool: Tool, s: Store, scope: Scope) {
    forall answers: seq<Answer> :: tool(answers).Some? ==> FreshId(tool(answers).value, s, scope)
  }

  predicate FreshId(st: Statement, s: Store, scope: Scope) {
    st.Insert? || st.Upsert? ==> RowKey(st.table, st.id) !in Hidden(s, scope)
  }

  // ---- and does all that it is asked within its scope ----

  predicate Picks(s: Store, scope: Scope, table: string, matches: (nat, Row) -> bool, k: RowKey) {
    k in s && k.table == table && s[k].scope == scope && matches(k.id, s[k])
  }

  /** A select finds every matching row of the scope and no other. */
  lemma SelectFinds(s: Store, scope: Scope, table: string, matches: (nat, Row) -> bool)
    ensures var (s', a) := Execute(s, scope, Select(table, matches));
      && s' == s && a.Found?
      && forall k :: (k in a.rows <==> Picks(s, scope, table, matches, k)) && (k in a.rows ==> a.rows[k] == s[k])
  {
  }

  /** Every picked row is rewritten, all but its unique key, and no other row is touched. */
  ghost predicate Rewrites(s: Store, s': Store, a: Answer, picked: RowKey -> bool, rewrite: Row -> Row) {
    && a.Changed? && s'.Keys == s.Keys
    && forall k :: k in s ==>
         (k in a.keys <==> picked(k)) && s'[k] == if picked(k) then rewrite(s[k]).(key := s[k].key) else s[k]
  }

  /** An update rewrites every matching row of the scope, unless one would leave the scope. */
  lemma UpdateRewrites(s: Store, scope: Scope, table: string, matches: (nat, Row) -> bool, rewrite: Row -> Row)
    ensures var (s', a) := Execute(s, scope, Update(table, matches, rewrite));
      if exists k :: Picks(s, scope, table, matches, k) && rewrite(s[k]).scope != scope then s' == s && a == Denied
      else Rewrites(s, s', a, k => Picks(s, scope, table, matches, k), rewrite)
  {
    var at := Matching(s, scope, table, matches);
    assert forall k :: k in at <==> Picks(s, scope, table, matches, k);
  }

  /** The row has the unique key of `row`. */
  predicate Shares(s: Store, table: string, row: Row, k: RowKey) {
    k in s && k.table == table && row.key.Some? && s[k].key == row.key && s[k].scope == row.scope
  }

  /** An insert adds the row, unless it is of another scope, or its id or its unique key is taken. */
  lemma InsertAdds(s: Store, scope: Scope, k: RowKey, row: Row)
    ensures Execute(s, scope, Insert(k.table, k.id, row)) ==
      if row.scope != scope then (s, Denied)
      else if k in s || exists other :: Shares(s, k.table, row, other) then (s, Conflict)
      else (s[k := row], Changed({k}))
  {
    assert k == RowKey(k.table, k.id);
    assert forall other :: other in SameKey(s, k.table, row) <==> Shares(s, k.table, row, other);
  }

  /** An upsert rewrites the row with its unique key, and where there is none inserts. */
  lemma UpsertWrites(s: Store, scope: Scope, k: RowKey, row: Row, rewrite: Row -> Row)
    ensures var (s', a) := Execute(s, scope, Upsert(k.table, k.id, row, rewrite));
      if row.scope != scope then s' == s && a == Denied
      else if exists other :: Shares(s, k.table, row, other) then
        if exists other :: Shares(s, k.table, row, other) && rewrite(s[other]).scope != scope then s' == s && a == Denied
        else Rewrites(s, s', a, other => Shares(s, k.table, row, other), rewrite)
      else (s', a) == Execute(s, scope, Insert(k.table, k.id, row))
  {
    assert forall other :: other in SameKey(s, k.table, row) <==> Shares(s, k.table, row, other);
  }

  /**
    A session runs its tool to the end, to an error or to the given number of statements; each answer is
    that of the statement the tool chose, on what the statements before it left. An error undoes them all.
   */
  lemma {:induction false} SessionRuns(s: Store, scope: Scope, tool: Tool, n: nat)
    ensures var r := Run(s, scope, tool, n);
      && |r.answers| <= n && (|r.answers| < n ==> Ended(r.answers) || tool(r.answers).None?)
      && (Ended(r.answers) ==> r.store == s)
      && forall k :: 0 <= k < |r.answers| ==> Answered(s, scope, tool, r.answers, k)
    ensures n > 0 && |Run(s, scope, tool, n).answers| < n ==> Run(s, scope, tool, n) == Run(s, scope, tool, n - 1)
  {
    if n > 0 {
      SessionRuns(s, scope, tool, n - 1);
      var before, r := Run(s, scope, tool, n - 1), Run(s, scope, tool, n);
      if r.answers != before.answers {
        assert r.answers[..|before.answers|] == before.answers;
        assert |before.answers| == n - 1;
        forall k | 0 <= k < |r.answers| ensures Answered(s, scope, tool, r.answers, k) {
          if k < |before.answers| {
            assert Answered(s, scope, tool, before.answers, k) && r.answers[..k] == before.answers[..k];
          }
        }
      }
    }
  }

  ghost predicate Answered(s: Store, scope: Scope, tool: Tool, answers: seq<Answer>, k: nat)
    requires k < |answers|
  {
    && tool(answers[..k]).Some? && Run(s, scope, tool, k).answers == answers[..k]
    && Execute(Run(s, scope, tool, k).store, scope, tool(answers[..k]).value).1 == answers[k]
    && (!IsError(answers[k]) ==>
          Run(s, scope, tool, k + 1).store == Execute(Run(s, scope, tool, k).store, scope, tool(answers[..k]).value).0)
  }

  // ---- one statement sees and touches only its scope ----

  lemma MatchingIsPrivate(s: Store, scope: Scope, table: string, matches: (nat, Row) -> bool)
    ensures Matching(s, scope, table, matches) == Matching(Visible(s, scope), scope, table, matches)
  {
  }

  lemma SameKeyIsPrivate(s: Store, scope: Scope, table: string, row: Row)
    requires row.scope == scope
    ensures SameKey(s, table, row) == SameKey(Visible(s, scope), table, row)
  {
  }

  lemma ChangeIsPrivate(s: Store, scope: Scope, at: set<RowKey>, rewrite: Row -> Row)
    requires at <= Visible(s, scope).Keys
    ensures var (s', a) := Change(s, scope, at, rewrite);
            && (Visible(s', scope), a) == Change(Visible(s, scope), scope, at, rewrite)
            && Hidden(s', scope) == Hidden(s, scope)
  {
    var v := Visible(s, scope);
    assert forall k :: k in at ==> k in s && v[k] == s[k];
    if !exists k :: k in at && rewrite(s[k]).scope != scope {
      var s' := RewriteAll(s, at, rewrite);
      assert forall k :: k in s ==> (s'[k].scope == scope <==> s[k].scope == scope);
      assert Visible(s', scope) == RewriteAll(v, at, rewrite);
    }
  }

  lemma CreateIsPrivate(s: Store, scope: Scope, k: RowKey, row: Row)
    requires k !in Hidden(s, scope)
    ensures var (s', a) := Create(s, scope, k, row);
            && (Visible(s', scope), a) == Create(Visible(s, scope), scope, k, row)
            && Hidden(s', scope) == Hidden(s, scope)
  {
    if row.scope == scope {
      SameKeyIsPrivate(s, scope, k.table, row);
      assert k in s <==> k in Visible(s, scope);
      if k !in s {
        assert Visible(s[k := row], scope) == Visible(s, scope)[k := row];
        assert Hidden(s[k := row], scope) == Hidden(s, scope);
      }
    }
  }

  /** A statement does to the whole database what it would do to the scope's rows alone. */
  lemma ExecuteIsPrivate(s: Store, scope: Scope, st: Statement)
    requires FreshId(st, s, scope)
    ensures var (s', a) := Execute(s, scope, st);
            && (Visible(s', scope), a) == Execute(Visible(s, scope), scope, st)
            && Hidden(s', scope) == Hidden(s, scope)
  {
    match st
    case Select(table, matches) =>
      MatchingIsPrivate(s, scope, table, matches);
      var at := Matching(s, scope, table, matches);
      assert RowsAt(s, at) == RowsAt(Visible(s, scope), at);
    case Update(table, matches, rewrite) =>
      MatchingIsPrivate(s, scope, table, matches);
      ChangeIsPrivate(s, scope, Matching(s, scope, table, matches), rewrite);
    case Insert(table, id, row) =>
      CreateIsPrivate(s, scope, RowKey(table, id), row);
    case Upsert(table, id, row, rewrite) =>
      if row.scope == scope {
        SameKeyIsPrivate(s, scope, table, row);
        if SameKey(s, table, row) != {} {
          ChangeIsPrivate(s, scope, SameKey(s, table, row), rewrite);
        } else {
          CreateIsPrivate(s, scope, RowKey(table, id), row);
        }
      }
  }

  // ---- a whole session does ----

  /**
    The same answers, and the same rows of the scope, as on a database with only the scope's rows; other rows
    are unchanged.
   */
  lemma {:induction false} SessionIsPrivate(s: Store, scope: Scope, tool: Tool, n: nat)
    requires FreshIds(tool, s, scope)
    ensures var r, p := Run(s, scope, tool, n), Run(Visible(s, scope), scope, tool, n);
            && r.answers == p.answers && Visible(r.store, scope) == p.store
            && Hidden(r.store, scope) == Hidden(s, scope)
  {
    if n > 0 {
      SessionIsPrivate(s, scope, tool, n - 1);
      var before := Run(s, scope, tool, n - 1);
      if !Ended(before.answers) && tool(before.answers).Some? {
        var st := tool(before.answers).value;
        assert FreshId(st, s, scope);
        ExecuteIsPrivate(before.store, scope, st);
      }
    }
  }

  // ---- and so does any sequence of tool calls, each its own transaction ----

  /** Which tool is called next may depend on the answers of every call so far, failed ones included. */
  type Client = seq<seq<Answer>> -> Option<Tool>

  datatype Calls = Calls(store: Store, answers: seq<seq<Answer>>)

  /** At most `n` calls; call `i` runs at most `len(i)` statements, and the next starts where it left the database. */
  function RunCalls(s: Store, scope: Scope, client: Client, len: nat -> nat, n: nat): Calls {
    if n == 0 then Calls(s, [])
    else
      var before := RunCalls(s, scope, client, len, n - 1);
      match client(before.answers)
      case None => before
      case Some(tool) =>
        var call := Run(before.store, scope, tool, len(n - 1));
        Calls(call.store, before.answers + [call.answers])
  }

  /** Each call is a session of the tool the client chose, on the database the calls before it left. */
  lemma {:induction false} CallsRun(s: Store, scope: Scope, client: Client, len: nat -> nat, n: nat)
    ensures var r := RunCalls(s, scope, client, len, n);
      && |r.answers| <= n && (|r.answers| < n ==> client(r.answers).None?)
      && forall k :: 0 <= k < |r.answers| ==> Called(s, scope, client, len, r.answers, k)
    ensures n > 0 && |RunCalls(s, scope, client, len, n).answers| < n ==>
              RunCalls(s, scope, client, len, n) == RunCalls(s, scope, client, len, n - 1)
  {
    if n > 0 {
      CallsRun(s, scope, client, len, n - 1);
      var before, r := RunCalls(s, scope, client, len, n - 1), RunCalls(s, scope, client, len, n);
      if r.answers != before.answers {
        assert r.answers[..|before.answers|] == before.answers;
        assert |before.answers| == n - 1;
        forall k | 0 <= k < |r.answers| ensures Called(s, scope, client, len, r.answers, k) {
          if k < |before.answers| {
            assert Called(s, scope, client, len, before.answers, k) && r.answers[..k] == before.answers[..k];
          }
        }
      }
    }
  }

  ghost predicate Called(s: Store, scope: Scope, client: Client, len: nat -> nat, answers: seq<seq<Answer>>, k: nat)
    requires k < |answers|
  {
    var before := RunCalls(s, scope, client, len, k);
    && client(answers[..k]).Some? && before.answers == answers[..k]
    && var call := Run(before.store, scope, client(answers[..k]).value, len(k));
    && call.answers == answers[k] && RunCalls(s, scope, client, len, k + 1).store == call.store
  }

  ghost predicate FreshClient(client: Client, s: Store, scope: Scope) {
    forall answers: seq<seq<Answer>> :: client(answers).Some? ==> FreshIds(client(answers).value, s, scope)
  }

  lemma FreshnessCarriesOver(tool: Tool, s: Store, s': Store, scope: Scope)
    requires FreshIds(tool, s, scope) && Hidden(s', scope) == Hidden(s, scope)
    ensures FreshIds(tool, s', scope)
  {
    forall answers: seq<Answer> | tool(answers).Some? ensures FreshId(tool(answers).value, s', scope) {
      assert FreshId(tool(answers).value, s, scope);
    }
  }

  /** Any sequence of calls gives the answers, and leaves the scope's rows, it would on a database with only those rows. */
  lemma {:induction false} CallsArePrivate(s: Store, scope: Scope, client: Client, len: nat -> nat, n: nat)
    requires FreshClient(client, s, scope)
    ensures var r, p := RunCalls(s, scope, client, len, n), RunCalls(Visible(s, scope), scope, client, len, n);
            && r.answers == p.answers && Visible(r.store, scope) == p.store
            && Hidden(r.store, scope) == Hidden(s, scope)
  {
    if n > 0 {
      CallsArePrivate(s, scope, client, len, n - 1);
      var before := RunCalls(s, scope, client, len, n - 1);
      if client(before.answers).Some? {
        var tool := client(before.answers).value;
        FreshnessCarriesOver(tool, s, before.store, scope);
        SessionIsPrivate(before.store, scope, tool, len(n - 1));
      }
    }
  }

  /** Rows of every other scope survive any sequence of calls unchanged, and none is added there. */
  lemma OtherScopesUnchanged(s: Store, scope: Scope, client: Client, len: nat -> nat, n: nat, other: Scope)
    requires FreshClient(client, s, scope) && other != scope
    ensures Visible(RunCalls(s, scope, client, len, n).store, other) == Visible(s, other)
  {
    CallsArePrivate(s, scope, client, len, n);
    OtherIsHidden(s, scope, other);
    OtherIsHidden(RunCalls(s, scope, client, len, n).store, scope, other);
  }

  lemma OtherIsHidden(s: Store, scope: Scope, other: Scope)
    requires other != scope
    ensures Visible(s, other) == Visible(Hidden(s, scope), other)
  {
  }

  /** What a sequence of calls answers and leaves in its scope does not depend on any row of another scope. */
  lemma NothingLeaks(a: Store, b: Store, scope: Scope, client: Client, len: nat -> nat, n: nat)
    requires Visible(a, scope) == Visible(b, scope) && FreshClient(client, a, scope) && FreshClient(client, b, scope)
    ensures RunCalls(a, scope, client, len, n).answers == RunCalls(b, scope, client, len, n).answers
    ensures Visible(RunCalls(a, scope, client, len, n).store, scope) == Visible(RunCalls(b, scope, client, len, n).store, scope)
  {
    CallsArePrivate(a, scope, client, len, n);
    CallsArePrivate(b, scope, client, len, n);
  }

  // ---- fresh ids are exactly what is needed ----

  /** The statement answers, and changes the scope's rows, as on a database with only those rows. */
  predicate Private(s: Store, scope: Scope, st: Statement) {
    var (s', a) := Execute(s, scope, st);
    (Visible(s', scope), a) == Execute(Visible(s, scope), scope, st)
  }

  /** An insert is private if and only if the policy or the scope's own rows refuse it, or its id is not in use elsewhere. */
  lemma InsertIsPrivateIff(s: Store, scope: Scope, k: RowKey, row: Row)
    ensures Private(s, scope, Insert(k.table, k.id, row)) <==>
            row.scope != scope || SameKey(Visible(s, scope), k.table, row) != {} || k !in Hidden(s, scope)
  {
    assert k == RowKey(k.table, k.id);
    if row.scope == scope {
      SameKeyIsPrivate(s, scope, k.table, row);
    }
    if k !in Hidden(s, scope) {
      CreateIsPrivate(s, scope, k, row);
    }
  }

  /** An upsert: the same, except that the scope's own row of that key is then updated. */
  lemma UpsertIsPrivateIff(s: Store, scope: Scope, k: RowKey, row: Row, rewrite: Row -> Row)
    ensures Private(s, scope, Upsert(k.table, k.id, row, rewrite)) <==>
            row.scope != scope || SameKey(Visible(s, scope), k.table, row) != {} || k !in Hidden(s, scope)
  {
    assert k == RowKey(k.table, k.id);
    if row.scope == scope {
      SameKeyIsPrivate(s, scope, k.table, row);
      if SameKey(s, k.table, row) != {} {
        ChangeIsPrivate(s, scope, SameKey(s, k.table, row), rewrite);
      } else if k !in Hidden(s, scope) {
        CreateIsPrivate(s, scope, k, row);
      }
    }
  }

  // ---- recall, whose updates name only a row id ----

  /** Select the confirmed memories, pick some (by distance, say), then update each by its id. */
  function RecallTool(confirmed: Row -> bool, pick: Store -> seq<nat>, count: Row -> Row): Tool {
    (answers: seq<Answer>) =>
      if answers == [] then Some(Select("memories", (id: nat, row: Row) => confirmed(row)))
      else if !answers[0].Found? then None
      else
        var ids := pick(answers[0].rows);
        if |answers| <= |ids| then Some(Update("memories", (id: nat, row: Row) => id == ids[|answers| - 1], count)) else None
  }

  /** A client that recalls, over and over, whatever it likes. */
  function Recalling(confirmed: Row -> bool, pick: seq<seq<Answer>> -> (Store -> seq<nat>), count: Row -> Row): Client {
    (answers: seq<seq<Answer>>) => Some(RecallTool(confirmed, pick(answers), count))
  }

  /** The rows of the scope with these ids, counted once for each time the id is there. */
  function Counted(s: Store, scope: Scope, ids: seq<nat>, count: Row -> Row): Store {
    if ids == [] then s
    else
      var t, last := Counted(s, scope, ids[..|ids| - 1], count), RowKey("memories", ids[|ids| - 1]);
      if last in t && t[last].scope == scope then t[last := count(t[last]).(key := t[last].key)] else t
  }

  ghost predicate KeepsScope(count: Row -> Row) { forall row :: count(row).scope == row.scope }

  lemma CountsOne(s: Store, scope: Scope, id: nat, count: Row -> Row)
    requires KeepsScope(count)
    ensures var (s', a) := Execute(s, scope, Update("memories", (i: nat, row: Row) => i == id, count));
      && a.Changed?
      && s' == if RowKey("memories", id) in s && s[RowKey("memories", id)].scope == scope then
                 s[RowKey("memories", id) := count(s[RowKey("memories", id)]).(key := s[RowKey("memories", id)].key)]
               else s
  {
    var k, matches := RowKey("memories", id), (i: nat, row: Row) => i == id;
    UpdateRewrites(s, scope, "memories", matches, count);
    assert forall l :: Picks(s, scope, "memories", matches, l) ==> l == k;
    assert k in s && s[k].scope == scope ==> Picks(s, scope, "memories", matches, k);
  }

  function ConfirmedRows(s: Store, scope: Scope, confirmed: Row -> bool): Store {
    map k | k in s && k.table == "memories" && s[k].scope == scope && confirmed(s[k]) :: s[k]
  }

  lemma RecallFirst(s: Store, scope: Scope, confirmed: Row -> bool, pick: Store -> seq<nat>, count: Row -> Row)
    ensures Run(s, scope, RecallTool(confirmed, pick, count), 1) == Session(s, [Found(ConfirmedRows(s, scope, confirmed))])
  {
    var tool, matches := RecallTool(confirmed, pick, count), (id: nat, row: Row) => confirmed(row);
    assert Run(s, scope, tool, 0) == Session(s, []);
    assert RowsAt(s, Matching(s, scope, "memories", matches)) == ConfirmedRows(s, scope, confirmed);
  }

  /** After `m` of the updates. */
  ghost predicate RecalledSo(s: Store, scope: Scope, r: Session, shown: Store, ids: seq<nat>, count: Row -> Row, m: nat)
    requires m <= |ids|
  {
    && |r.answers| == m + 1 && r.answers[0] == Found(shown) && !Ended(r.answers)
    && r.store == Counted(s, scope, ids[..m], count)
  }

  lemma RecallNext(s: Store, scope: Scope, confirmed: Row -> bool, pick: Store -> seq<nat>, count: Row -> Row, m: nat)
    requires KeepsScope(count)
    requires var shown := ConfirmedRows(s, scope, confirmed);
      && 0 < m <= |pick(shown)|
      && RecalledSo(s, scope, Run(s, scope, RecallTool(confirmed, pick, count), m), shown, pick(shown), count, m - 1)
    ensures var shown := ConfirmedRows(s, scope, confirmed);
      RecalledSo(s, scope, Run(s, scope, RecallTool(confirmed, pick, count), m + 1), shown, pick(shown), count, m)
  {
    var ids := pick(ConfirmedRows(s, scope, confirmed));
    CountsOne(Run(s, scope, RecallTool(confirmed, pick, count), m).store, scope, ids[m - 1], count);
    assert ids[..m][..m - 1] == ids[..m - 1];
  }

  /** A recall shows the scope's confirmed memories and counts the picked ones, one after the other, as often as they are picked. */
  lemma {:induction false} RecallCounts(s: Store, scope: Scope, confirmed: Row -> bool, pick: Store -> seq<nat>,
                                        count: Row -> Row, m: nat)
    requires KeepsScope(count) && m <= |pick(ConfirmedRows(s, scope, confirmed))|
    ensures var shown, r := ConfirmedRows(s, scope, confirmed), Run(s, scope, RecallTool(confirmed, pick, count), m + 1);
      && RecalledSo(s, scope, r, shown, pick(shown), count, m)
      && (m == |pick(shown)| ==> RecallTool(confirmed, pick, count)(r.answers) == None)
  {
    if m == 0 {
      RecallFirst(s, scope, confirmed, pick, count);
    } else {
      RecallCounts(s, scope, confirmed, pick, count, m - 1);
      RecallNext(s, scope, confirmed, pick, count, m);
    }
  }

  lemma RecallInsertsNothing(confirmed: Row -> bool, pick: Store -> seq<nat>, count: Row -> Row, s: Store, scope: Scope)
    ensures FreshIds(RecallTool(confirmed, pick, count), s, scope)
  {
    var tool := RecallTool(confirmed, pick, count);
    forall answers: seq<Answer> | tool(answers).Some? ensures FreshId(tool(answers).value, s, scope) {
      assert tool(answers).value.Select? || tool(answers).value.Update?;
    }
  }

  lemma RecallingInsertsNothing(confirmed: Row -> bool, pick: seq<seq<Answer>> -> (Store -> seq<nat>), count: Row -> Row,
                                s: Store, scope: Scope)
    ensures FreshClient(Recalling(confirmed, pick, count), s, scope)
  {
    forall answers: seq<seq<Answer>> {
      RecallInsertsNothing(confirmed, pick(answers), count, s, scope);
    }
  }

  /** However often and whatever it picks, recalling in one scope changes no row of another, and its answers depend on none. */
  lemma {:induction false} RecallIsPrivate(a: Store, b: Store, scope: Scope, other: Scope, len: nat -> nat, n: nat,
                        confirmed: Row -> bool, pick: seq<seq<Answer>> -> (Store -> seq<nat>), count: Row -> Row)
    requires Visible(a, scope) == Visible(b, scope) && other != scope
    ensures var client := Recalling(confirmed, pick, count);
      && Visible(RunCalls(a, scope, client, len, n).store, other) == Visible(a, other)
      && RunCalls(a, scope, client, len, n).answers == RunCalls(b, scope, client, len, n).answers
      && Visible(RunCalls(a, scope, client, len, n).store, scope) == Visible(RunCalls(b, scope, client, len, n).store, scope)
  {
    var client := Recalling(confirmed, pick, count);
    RecallingInsertsNothing(confirmed, pick, count, a, scope);
    RecallingInsertsNothing(confirmed, pick, count, b, scope);
    OtherScopesUnchanged(a, scope, client, len, n, other);
    NothingLeaks(a, b, scope, client, len, n);
  }

  /** An update that names only a row id, as the one after a recall does: another scope's row of that id is not there for it. */
  lemma UpdateByIdIsScoped(s: Store, scope: Scope, table: string, id: nat, rewrite: Row -> Row)
    ensures var matches := (i: nat, row: Row) => i == id;
            var (s', a) := Execute(s, scope, Update(table, matches, rewrite));
            && Hidden(s', scope) == Hidden(s, scope)
            && (RowKey(table, id) !in Visible(s, scope) ==> s' == s && a == Changed({}))
  {
    var matches := (i: nat, row: Row) => i == id;
    ExecuteIsPrivate(s, scope, Update(table, matches, rewrite));
    if RowKey(table, id) !in Visible(s, scope) {
      forall k ensures k !in Matching(s, scope, table, matches) {
        assert k == RowKey(k.table, k.id);
      }
      assert Matching(s, scope, table, matches) == {};
      assert RewriteAll(s, {}, rewrite) == s;
    }
  }
}
