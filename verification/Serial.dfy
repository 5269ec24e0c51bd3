/**
  The two Self Core models agree: a writer whose statements run with no other writer's between them
  does what the one-transaction model says it does.
 */
module Serial {
  import opened Prelude
  import opened Crypto
  import opened Store
  import opened Export
  import opened Interleaving
  import SelfCore
  import Facts

  /** A Self Core as both models show it. */
  datatype View = View(core: Option<Core>, archive: map<int, string>)

  function ViewOf(s: State): View {
    View(s.core, map v | v in s.history :: s.history[v].content)
  }

  function LedgerView(l: Ledger, soul: SoulId): View {
    View(if soul in l.cores then Some(Core(TextOf(l.cores[soul].content), l.cores[soul].version)) else None,
         map k | k in l.history && k.soul == soul :: k.version := TextOf(l.history[k].content))
  }

  lemma ArchiveAt(l: Ledger, soul: SoulId, v: int)
    ensures v in LedgerView(l, soul).archive <==> VersionKey(soul, v) in l.history
    ensures v in LedgerView(l, soul).archive ==> LedgerView(l, soul).archive[v] == TextOf(l.history[VersionKey(soul, v)].content)
  {
    assert VersionKey(soul, v) in l.history ==> VersionKey(soul, v).version == v;
  }

  /** Nobody holds an uncommitted row. */
  ghost predicate Quiet(s: State) {
    forall x :: x in s.writers ==> !HoldsArchive(s, x) && !s.writers[x].phase.Inserted?
  }

  // ---- a writer alone, statement by statement ----

  function Saving(w: WriterId, content: string): seq<Step> {
    [ReadVersion(w, content, None), ArchiveRow(w), UpdateRow(w), Commit(w)]
  }

  function Creating(w: WriterId, content: string): seq<Step> {
    [ReadVersion(w, content, None), InsertRow(w, 1, map[]), Commit(w)]
  }

  /** The state after the version is read and the row archived. */
  function ArchivedState(s: State, w: WriterId, content: string): State
    requires s.core.Some?
  {
    s.(writers := s.writers[w := Writer(content, Archived(s.core, s.commits, s.core.value, s.commits))])
  }

  lemma SavingArchives(s: State, w: WriterId, content: string)
    requires Quiet(s) && w !in s.writers && s.core.Some? && s.core.value.version >= 1 && s.core.value.version !in s.history
    ensures ValidFrom(s, Saving(w, content)[..2]) && After(s, Saving(w, content)[..2]) == ArchivedState(s, w, content)
  {
    var run := Saving(w, content);
    var s1 := s.(writers := s.writers[w := Writer(content, Reading(s.core, s.commits))]);
    assert Enabled(s, run[0]) && Apply(s, run[0]) == s1;
    assert forall x :: HoldsArchive(s1, x) ==> HoldsArchive(s, x);
    assert Enabled(s1, run[1]) && Apply(s1, run[1]) == ArchivedState(s, w, content);
    assert [] + [run[0], run[1]] == run[..2];
    TwoSteps(s, [], run[0], run[1], ArchivedState(s, w, content));
  }

  lemma ArchivedCommits(s: State, w: WriterId, content: string)
    requires Quiet(s) && w !in s.writers && s.core.Some?
    ensures var t := ArchivedState(s, w, content);
      && Enabled(t, UpdateRow(w)) && Enabled(Apply(t, UpdateRow(w)), Commit(w))
      && var s', row := Apply(Apply(t, UpdateRow(w)), Commit(w)), s.core.value;
      && s'.core == Some(Core(content, row.version + 1))
      && s'.history == s.history[row.version := Archive(row.content, Some(w))]
  {
  }

  /** With a row: archive, update and commit are one bump of the version. */
  lemma SavingAlone(s: State, w: WriterId, content: string)
    requires Quiet(s) && w !in s.writers && s.core.Some? && s.core.value.version >= 1 && s.core.value.version !in s.history
    ensures ValidFrom(s, Saving(w, content))
    ensures var s', row := After(s, Saving(w, content)), s.core.value;
      && s'.core == Some(Core(content, row.version + 1))
      && s'.history == s.history[row.version := Archive(row.content, Some(w))]
  {
    var run, t := Saving(w, content), ArchivedState(s, w, content);
    SavingArchives(s, w, content);
    ArchivedCommits(s, w, content);
    TwoSteps(s, run[..2], run[2], run[3], Apply(Apply(t, run[2]), run[3]));
    assert run[..2] + [run[2], run[3]] == run;
  }

  lemma ViewAfterArchiving(s: State, s': State, v: int, a: Archive)
    requires s'.history == s.history[v := a]
    ensures ViewOf(s') == View(s'.core, ViewOf(s).archive[v := a.content])
  {
  }

  /** With a row whose version is archived already: the archive statement meets UNIQUE and the writer aborts. */
  lemma SavingAborts(s: State, w: WriterId, content: string)
    requires Quiet(s) && w !in s.writers && s.core.Some? && s.core.value.version >= 1 && s.core.value.version in s.history
    ensures ValidFrom(s, Saving(w, content)[..2])
    ensures var s' := After(s, Saving(w, content)[..2]);
      s'.core == s.core && s'.history == s.history && s'.writers[w].phase.Aborted?
  {
    var run := Saving(w, content);
    var s1 := s.(writers := s.writers[w := Writer(content, Reading(s.core, s.commits))]);
    assert Enabled(s, run[0]) && Apply(s, run[0]) == s1;
    assert forall x :: HoldsArchive(s1, x) ==> HoldsArchive(s, x);
    assert Enabled(s1, run[1]);
    assert [] + [run[0], run[1]] == run[..2];
    TwoSteps(s, [], run[0], run[1], Apply(s1, run[1]));
  }

  /** Without a row: the first version. */
  lemma CreatingAlone(s: State, w: WriterId, content: string)
    requires Quiet(s) && w !in s.writers && s.core.None? && s.history == map[]
    ensures ValidFrom(s, Creating(w, content))
    ensures var s' := After(s, Creating(w, content)); s'.core == Some(Core(content, 1)) && s'.history == map[]
  {
    var run := Creating(w, content);
    var s1 := s.(writers := s.writers[w := Writer(content, Reading(None, s.commits))]);
    var s2 := Goto(s1, w, Inserted(Core(content, 1), map[]));
    assert Enabled(s, run[0]) && Apply(s, run[0]) == s1;
    assert Enabled(s1, run[1]) && Apply(s1, run[1]) == s2;
    ThreeSteps(s, [], run[0], run[1], run[2], Apply(s2, run[2]));
    assert [] + [run[0], run[1], run[2]] == run;
  }

  // ---- the same as one bump ----

  lemma BumpedView(l: Ledger, soul: SoulId, sealed: Sealed, user: string, note: Option<string>)
    requires soul in l.cores && SelfCore.Bump(l, soul, sealed, user, note).Ok?
    ensures var row, v := l.cores[soul], LedgerView(l, soul);
      LedgerView(SelfCore.Bump(l, soul, sealed, user, note).value, soul)
      == View(Some(Core(TextOf(sealed), row.version + 1)), v.archive[row.version := TextOf(row.content)])
  {
    var row, l' := l.cores[soul], SelfCore.Bump(l, soul, sealed, user, note).value;
    forall v: int
      ensures v in LedgerView(l', soul).archive <==> v == row.version || v in LedgerView(l, soul).archive
      ensures v in LedgerView(l', soul).archive ==>
        LedgerView(l', soul).archive[v] == if v == row.version then TextOf(row.content) else LedgerView(l, soul).archive[v]
    {
      ArchiveAt(l, soul, v);
      ArchiveAt(l', soul, v);
    }
  }

  lemma ArchivedInBoth(s: State, l: Ledger, soul: SoulId, v: int)
    requires ViewOf(s) == LedgerView(l, soul)
    ensures v in s.history <==> VersionKey(soul, v) in l.history
  {
    ArchiveAt(l, soul, v);
    assert v in s.history <==> v in ViewOf(s).archive;
  }

  lemma SavedView(s: State, w: WriterId, content: string)
    requires Quiet(s) && w !in s.writers && s.core.Some? && s.core.value.version >= 1 && s.core.value.version !in s.history
    ensures ValidFrom(s, Saving(w, content))
    ensures var row := s.core.value;
      ViewOf(After(s, Saving(w, content)))
      == View(Some(Core(content, row.version + 1)), ViewOf(s).archive[row.version := row.content])
  {
    SavingAlone(s, w, content);
    ViewAfterArchiving(s, After(s, Saving(w, content)), s.core.value.version, Archive(s.core.value.content, Some(w)));
  }

  /** A save that the bump accepts: run alone, the statements commit and leave what the bump leaves. */
  lemma SaveIsBump(s: State, w: WriterId, l: Ledger, soul: SoulId, sealed: Sealed, user: string, note: Option<string>)
    requires Quiet(s) && w !in s.writers && ViewOf(s) == LedgerView(l, soul)
    requires soul in l.cores && l.cores[soul].version >= 1 && SelfCore.Bump(l, soul, sealed, user, note).Ok?
    ensures var run := Saving(w, TextOf(sealed));
      ValidFrom(s, run) && ViewOf(After(s, run)) == LedgerView(SelfCore.Bump(l, soul, sealed, user, note).value, soul)
  {
    ArchivedInBoth(s, l, soul, l.cores[soul].version);
    SavedView(s, w, TextOf(sealed));
    BumpedView(l, soul, sealed, user, note);
  }

  /** A save that the bump refuses: run alone, the archive statement aborts the writer, and nothing changes. */
  lemma RefusedSaveAborts(s: State, w: WriterId, l: Ledger, soul: SoulId, sealed: Sealed, user: string, note: Option<string>)
    requires Quiet(s) && w !in s.writers && ViewOf(s) == LedgerView(l, soul)
    requires soul in l.cores && l.cores[soul].version >= 1 && SelfCore.Bump(l, soul, sealed, user, note).Err?
    ensures var run := Saving(w, TextOf(sealed))[..2];
      ValidFrom(s, run) && After(s, run).writers[w].phase.Aborted? && ViewOf(After(s, run)) == LedgerView(l, soul)
  {
    ArchivedInBoth(s, l, soul, l.cores[soul].version);
    SavingAborts(s, w, TextOf(sealed));
  }

  /** The first save. */
  lemma CreateIsBump(s: State, w: WriterId, l: Ledger, soul: SoulId, sealed: Sealed, user: string, note: Option<string>)
    requires Quiet(s) && w !in s.writers && ViewOf(s) == LedgerView(l, soul)
    requires soul !in l.cores && SelfCore.SoulInv(l, soul)
    ensures var run := Creating(w, TextOf(sealed));
      && ValidFrom(s, run) && SelfCore.Bump(l, soul, sealed, user, note).Ok?
      && ViewOf(After(s, run)) == LedgerView(SelfCore.Bump(l, soul, sealed, user, note).value, soul)
  {
    assert s.history == map[] by {
      forall v ensures v !in s.history {
        ArchivedInBoth(s, l, soul, v);
      }
    }
    CreatingAlone(s, w, TextOf(sealed));
    assert LedgerView(l, soul).archive == map[];
  }
}
