/** Self Core versioning with the writers' statements interleaved, under READ COMMITTED. */
module Interleaving {
  import opened Prelude

  // One soul. Every writer (web save, CLI edit, CLI import, bundle import) reads the version, archives
  // whatever row is then current, overwrites it with the version it read plus one, and commits. A
  // statement sees committed rows only; a statement that would wait for another transaction's
  // uncommitted row is not enabled. A statement that waited and then failed is a `Rollback`.

  type WriterId = nat

  datatype Core = Core(content: string, version: int)

  /** A committed history row, with the transaction that inserted it. */
  datatype Archive = Archive(content: string, writer: Option<WriterId>)

  /**
    `saw` is the row whose version was read (the code keeps only the version), `at` the number of
    Self Core commits so far at that moment.
   */
  datatype Phase =
    | Reading(saw: Option<Core>, at: nat)
    | Archived(saw: Option<Core>, at: nat, row: Core, rowAt: nat)   // holds an uncommitted history row
    | Updated(saw: Option<Core>, at: nat, row: Core, rowAt: nat)    // and an uncommitted current row
    | Inserted(first: Core, brought: map<int, string>)              // holds an uncommitted first row
    | CommittedUpdate(row: Core)
    | CommittedInsert
    | Aborted

  datatype Writer = Writer(content: string, phase: Phase)

  datatype State = State(core: Option<Core>, history: map<int, Archive>, writers: map<WriterId, Writer>, commits: nat)

  datatype Step =
    | ReadVersion(w: WriterId, content: string, expected: Option<int>)  // `expected` is the web writer's
    | ArchiveRow(w: WriterId)
    | UpdateRow(w: WriterId)
    | InsertRow(w: WriterId, start: int, brought: map<int, string>)
    | Commit(w: WriterId)
    | Rollback(w: WriterId)

  const INITIAL := State(None, map[], map[], 0)

  function VersionOf(c: Option<Core>): int { if c.Some? then c.value.version else 0 }

  predicate HoldsArchive(s: State, w: WriterId) {
    w in s.writers && (s.writers[w].phase.Archived? || s.writers[w].phase.Updated?)
  }

  predicate Active(s: State, w: WriterId) {
    w in s.writers && !s.writers[w].phase.CommittedUpdate? && !s.writers[w].phase.CommittedInsert? && !s.writers[w].phase.Aborted?
  }

  ghost predicate Enabled(s: State, step: Step) {
    var w := step.w;
    match step
    case ReadVersion(_, _, _) => w !in s.writers
    case ArchiveRow(_) =>
      && w in s.writers && s.writers[w].phase.Reading? && VersionOf(s.writers[w].phase.saw) != 0 && s.core.Some?
      && forall x :: HoldsArchive(s, x) ==> s.writers[x].phase.row.version != s.core.value.version
    case UpdateRow(_) =>
      && w in s.writers && s.writers[w].phase.Archived?
      && forall x :: x in s.writers ==> !s.writers[x].phase.Updated?
    case InsertRow(_, start, brought) =>
      && w in s.writers && s.writers[w].phase.Reading? && VersionOf(s.writers[w].phase.saw) == 0
      && start >= 1 && (forall v :: v in brought ==> v < start)
      && forall x :: x in s.writers ==> !s.writers[x].phase.Inserted?
    case Commit(_) => w in s.writers && (s.writers[w].phase.Updated? || s.writers[w].phase.Inserted?)
    case Rollback(_) => Active(s, w)
  }

  function Goto(s: State, w: WriterId, phase: Phase): State
    requires w in s.writers
  {
    s.(writers := s.writers[w := s.writers[w].(phase := phase)])
  }

  ghost function Apply(s: State, step: Step): State
    requires Enabled(s, step)
  {
    var w := step.w;
    match step
    case ReadVersion(_, content, expected) =>
      var stale := expected.Some? && expected.value != VersionOf(s.core);
      s.(writers := s.writers[w := Writer(content, if stale then Aborted else Reading(s.core, s.commits))])
    case ArchiveRow(_) =>
      var p := s.writers[w].phase;
      Goto(s, w, if s.core.value.version in s.history then Aborted else Archived(p.saw, p.at, s.core.value, s.commits))
    case UpdateRow(_) =>
      var p := s.writers[w].phase;
      Goto(s, w, Updated(p.saw, p.at, p.row, p.rowAt))
    case InsertRow(_, start, brought) =>
      Goto(s, w, if s.core.Some? then Aborted else Inserted(Core(s.writers[w].content, start), brought))
    case Commit(_) =>
      var p := s.writers[w].phase;
      if p.Updated? then
        Goto(s, w, CommittedUpdate(p.row)).(
          core := Some(Core(s.writers[w].content, VersionOf(p.saw) + 1)),
          history := s.history[p.row.version := Archive(p.row.content, Some(w))],
          commits := s.commits + 1)
      else
        Goto(s, w, CommittedInsert).(
          core := Some(p.first),
          history := map v | v in p.brought :: Archive(p.brought[v], None),
          commits := s.commits + 1)
    case Rollback(_) => Goto(s, w, Aborted)
  }

  // ---- runs ----

  ghost predicate ValidFrom(s: State, run: seq<Step>)
    decreases |run|, 0
  {
    run != [] ==> ValidFrom(s, run[..|run| - 1]) && Enabled(After(s, run[..|run| - 1]), run[|run| - 1])
  }

  ghost function After(s: State, run: seq<Step>): State
    requires ValidFrom(s, run)
    decreases |run|, 1
  {
    if run == [] then s else Apply(After(s, run[..|run| - 1]), run[|run| - 1])
  }

  // ---- the version invariant ----

  /** Archived versions lie strictly below the current one; no row means no history. */
  ghost predicate VersionInv(s: State) {
    if s.core.Some? then s.core.value.version >= 1 && forall v :: v in s.history ==> v < s.core.value.version
    else s.history == map[]
  }

  /** At most one writer holds an uncommitted archive row, and it copies the committed current row. */
  ghost predicate ArchiverInv(s: State) {
    && (forall w, x :: HoldsArchive(s, w) && HoldsArchive(s, x) ==> w == x)
    && (forall w :: HoldsArchive(s, w) ==>
          var p := s.writers[w].phase; s.core == Some(p.row) && p.rowAt == s.commits && p.row.version !in s.history)
  }

  /** At most one writer holds an uncommitted first row, and then nothing is committed yet. */
  ghost predicate InserterInv(s: State) {
    && (s.core.None? ==> s.history == map[])
    && (forall w, x :: w in s.writers && x in s.writers && s.writers[w].phase.Inserted? && s.writers[x].phase.Inserted? ==> w == x)
    && (forall w :: w in s.writers && s.writers[w].phase.Inserted? ==>
          var p := s.writers[w].phase;
          s.core.None? && p.first.version >= 1 && forall v :: v in p.brought ==> v < p.first.version)
  }

  /** A writer since whose read nothing was committed saw the current row. */
  ghost predicate ReaderInv(s: State) {
    forall w :: w in s.writers && (s.writers[w].phase.Reading? || HoldsArchive(s, w)) ==>
      var p := s.writers[w].phase; p.at <= s.commits && (p.at == s.commits ==> p.saw == s.core)
  }

  /** A committed archive is in the history under its writer's name. */
  ghost predicate RecordInv(s: State) {
    forall w :: w in s.writers && s.writers[w].phase.CommittedUpdate? ==>
      var v := s.writers[w].phase.row.version; v in s.history && s.history[v].writer == Some(w)
  }

  /** What holds in every reachable state, safe or not. */
  ghost predicate Always(s: State) {
    ArchiverInv(s) && InserterInv(s) && ReaderInv(s) && RecordInv(s)
  }

  /** The committing writer was the only one with an uncommitted row of either kind. */
  lemma CommitLeavesNoHolder(s: State, w: WriterId)
    requires Always(s) && Enabled(s, Commit(w))
    ensures forall x :: !HoldsArchive(Apply(s, Commit(w)), x)
  {
    var s' := Apply(s, Commit(w));
    assert HoldsArchive(s, w) || s.writers[w].phase.Inserted?;
    forall x ensures !HoldsArchive(s', x) {
      assert x != w && HoldsArchive(s', x) ==> HoldsArchive(s, x);
    }
  }

  lemma StepKeepsArchiver(s: State, step: Step)
    requires Always(s) && Enabled(s, step)
    ensures ArchiverInv(Apply(s, step))
  {
    var s', w := Apply(s, step), step.w;
    assert forall x :: x != w ==> (HoldsArchive(s', x) <==> HoldsArchive(s, x));
    if step.ArchiveRow? {
      assert !exists x :: HoldsArchive(s, x);
    } else if step.Commit? {
      CommitLeavesNoHolder(s, w);
    }
  }

  lemma StepKeepsInserter(s: State, step: Step)
    requires Always(s) && Enabled(s, step)
    ensures InserterInv(Apply(s, step))
  {
  }

  lemma StepKeepsReader(s: State, step: Step)
    requires Always(s) && Enabled(s, step)
    ensures ReaderInv(Apply(s, step))
  {
  }

  lemma StepKeepsRecord(s: State, step: Step)
    requires Always(s) && Enabled(s, step)
    ensures RecordInv(Apply(s, step))
  {
  }

  lemma {:induction false} AlwaysHolds(run: seq<Step>)
    requires ValidFrom(INITIAL, run)
    ensures Always(After(INITIAL, run))
  {
    if run != [] {
      var n := |run| - 1;
      AlwaysHolds(run[..n]);
      var s := After(INITIAL, run[..n]);
      StepKeepsArchiver(s, run[n]);
      StepKeepsInserter(s, run[n]);
      StepKeepsReader(s, run[n]);
      StepKeepsRecord(s, run[n]);
    }
  }

  // ---- two writers archiving the same version ----

  /** UNIQUE (soul_id, version) lets at most one of them commit. */
  lemma SameVersionCommitsOnce(run: seq<Step>, w: WriterId, x: WriterId)
    requires ValidFrom(INITIAL, run)
    requires var s := After(INITIAL, run);
             && w in s.writers && s.writers[w].phase.CommittedUpdate?
             && x in s.writers && s.writers[x].phase.CommittedUpdate?
             && s.writers[w].phase.row.version == s.writers[x].phase.row.version
    ensures w == x
  {
    AlwaysHolds(run);
  }

  // ---- exactly which interleavings are safe ----

  /** No Self Core commit fell between this writer's version read and its archive statement. */
  ghost predicate Undisturbed(s: State, w: WriterId)
    requires HoldsArchive(s, w)
  {
    s.writers[w].phase.at == s.writers[w].phase.rowAt
  }

  /** Every updating writer that commits in the run was undisturbed. */
  ghost predicate EveryCommitUndisturbed(run: seq<Step>)
    requires ValidFrom(INITIAL, run)
  {
    run != [] ==>
      var n := |run| - 1;
      var s := After(INITIAL, run[..n]);
      EveryCommitUndisturbed(run[..n]) && (run[n].Commit? && HoldsArchive(s, run[n].w) ==> Undisturbed(s, run[n].w))
  }

  ghost predicate SafeThroughout(run: seq<Step>)
    requires ValidFrom(INITIAL, run)
  {
    VersionInv(After(INITIAL, run)) && (run != [] ==> SafeThroughout(run[..|run| - 1]))
  }

  /** Since a writer's read, the version rose with every commit and every version left behind was archived. */
  ghost predicate GrowthInv(s: State) {
    forall w :: w in s.writers && (s.writers[w].phase.Reading? || HoldsArchive(s, w)) ==>
      var p := s.writers[w].phase;
      && (p.at < s.commits ==> VersionOf(p.saw) < VersionOf(s.core))
      && (p.saw.Some? ==> p.saw.value.version >= 1 && forall v :: p.saw.value.version <= v < VersionOf(s.core) ==> v in s.history)
  }

  ghost predicate SawSomething(s: State) {
    forall w :: HoldsArchive(s, w) ==> s.writers[w].phase.saw.Some?
  }

  lemma StepKeepsSaw(s: State, step: Step)
    requires SawSomething(s) && Enabled(s, step)
    ensures SawSomething(Apply(s, step))
  {
  }

  /** A commit is safe exactly when its writer was undisturbed. */
  lemma CommitSafeIff(s: State, w: WriterId)
    requires Always(s) && VersionInv(s) && GrowthInv(s) && SawSomething(s)
    requires Enabled(s, Commit(w)) && HoldsArchive(s, w)
    ensures VersionInv(Apply(s, Commit(w))) <==> Undisturbed(s, w)
    ensures Undisturbed(s, w) <==> s.core == s.writers[w].phase.saw
  {
    var p, s' := s.writers[w].phase, Apply(s, Commit(w));
    if p.at < s.commits {
      assert p.row.version in s'.history;
      assert s'.core.value.version <= p.row.version;
    }
  }

  lemma SafeStepKeepsGrowth(s: State, step: Step)
    requires Always(s) && VersionInv(s) && GrowthInv(s) && SawSomething(s) && Enabled(s, step) && VersionInv(Apply(s, step))
    ensures GrowthInv(Apply(s, step))
  {
    if step.Commit? {
      CommitKeepsGrowth(s, step.w);
    }
  }

  lemma CommitKeepsGrowth(s: State, w: WriterId)
    requires Always(s) && VersionInv(s) && GrowthInv(s) && SawSomething(s)
    requires Enabled(s, Commit(w)) && VersionInv(Apply(s, Commit(w)))
    ensures GrowthInv(Apply(s, Commit(w)))
  {
    if HoldsArchive(s, w) {
      CommitSafeIff(s, w);
    }
  }

  lemma OtherStepsAreSafe(s: State, step: Step)
    requires Always(s) && VersionInv(s) && Enabled(s, step) && !(step.Commit? && HoldsArchive(s, step.w))
    ensures VersionInv(Apply(s, step))
  {
  }

  lemma {:induction false} SafeRunsGrow(run: seq<Step>)
    requires ValidFrom(INITIAL, run) && SafeThroughout(run)
    ensures GrowthInv(After(INITIAL, run)) && SawSomething(After(INITIAL, run))
  {
    if run != [] {
      var n := |run| - 1;
      AlwaysHolds(run[..n]);
      SafeRunsGrow(run[..n]);
      StepKeepsSaw(After(INITIAL, run[..n]), run[n]);
      SafeStepKeepsGrowth(After(INITIAL, run[..n]), run[n]);
    }
  }

  /**
    The version invariant holds throughout a run exactly when, for every updating writer that
    commits, no other writer committed between its version read and its archive statement.
   */
  lemma {:induction false} SafeIffUndisturbed(run: seq<Step>)
    requires ValidFrom(INITIAL, run)
    ensures SafeThroughout(run) <==> EveryCommitUndisturbed(run)
  {
    if run != [] {
      var n := |run| - 1;
      var s := After(INITIAL, run[..n]);
      SafeIffUndisturbed(run[..n]);
      if SafeThroughout(run[..n]) {
        AlwaysHolds(run[..n]);
        SafeRunsGrow(run[..n]);
        if run[n].Commit? && HoldsArchive(s, run[n].w) {
          CommitSafeIff(s, run[n].w);
        } else {
          OtherStepsAreSafe(s, run[n]);
        }
      }
    }
  }

  /** In such a run a commit replaces the very row its writer read: no save overwrites an unseen one. */
  lemma NoUnseenOverwrite(run: seq<Step>, w: WriterId)
    requires ValidFrom(INITIAL, run + [Commit(w)]) && EveryCommitUndisturbed(run + [Commit(w)])
    requires ValidFrom(INITIAL, run) && HoldsArchive(After(INITIAL, run), w)
    ensures After(INITIAL, run).core == After(INITIAL, run).writers[w].phase.saw
  {
    assert (run + [Commit(w)])[..|run|] == run;
    SafeIffUndisturbed(run);
    AlwaysHolds(run);
    SafeRunsGrow(run);
    CommitSafeIff(After(INITIAL, run), w);
  }

  // ---- the row a page was loaded from ----

  lemma SafeStepTellsVersion(s: State, step: Step)
    requires Always(s) && VersionInv(s) && GrowthInv(s) && SawSomething(s) && Enabled(s, step) && VersionInv(Apply(s, step))
    ensures VersionOf(s.core) <= VersionOf(Apply(s, step).core)
    ensures VersionOf(s.core) == VersionOf(Apply(s, step).core) ==> Apply(s, step).core == s.core
  {
    if step.Commit? && HoldsArchive(s, step.w) {
      CommitSafeIff(s, step.w);
    }
  }

  lemma {:induction false} SafePrefix(run: seq<Step>, i: nat)
    requires ValidFrom(INITIAL, run) && SafeThroughout(run) && i <= |run|
    ensures ValidFrom(INITIAL, run[..i]) && SafeThroughout(run[..i])
    decreases |run|
  {
    if i == |run| {
      assert run[..i] == run;
    } else {
      SafePrefix(run[..|run| - 1], i);
      assert run[..|run| - 1][..i] == run[..i];
    }
  }

  lemma {:induction false} LastStepTellsVersion(run: seq<Step>)
    requires run != [] && ValidFrom(INITIAL, run) && SafeThroughout(run)
    ensures ValidFrom(INITIAL, run[..|run| - 1]) && SafeThroughout(run[..|run| - 1])
    ensures var a, b := After(INITIAL, run[..|run| - 1]).core, After(INITIAL, run).core;
            VersionOf(a) <= VersionOf(b) && (VersionOf(a) == VersionOf(b) ==> a == b)
  {
    var n := |run| - 1;
    SafePrefix(run, n);
    AlwaysHolds(run[..n]);
    SafeRunsGrow(run[..n]);
    SafeStepTellsVersion(After(INITIAL, run[..n]), run[n]);
  }

  /** In a safe run the version tells the row: where it is the same, so is the row. */
  lemma {:induction false} VersionTellsRow(run: seq<Step>, i: nat)
    requires ValidFrom(INITIAL, run) && SafeThroughout(run) && i <= |run|
    ensures ValidFrom(INITIAL, run[..i])
    ensures var a, b := After(INITIAL, run[..i]).core, After(INITIAL, run).core;
            VersionOf(a) <= VersionOf(b) && (VersionOf(a) == VersionOf(b) ==> a == b)
    decreases |run|
  {
    SafePrefix(run, i);
    if i == |run| {
      assert run[..i] == run;
    } else {
      var n := |run| - 1;
      VersionTellsRow(run[..n], i);
      assert run[..n][..i] == run[..i];
      LastStepTellsVersion(run);
    }
  }

  /** The web writer goes on only if the version it reads is the one its page sent. */
  lemma {:induction false} ExpectedIsSeen(run: seq<Step>, j: nat)
    requires ValidFrom(INITIAL, run) && j < |run| && run[j].ReadVersion? && run[j].expected.Some?
    ensures var s, w := After(INITIAL, run), run[j].w;
            w in s.writers && (s.writers[w].phase.Reading? || HoldsArchive(s, w) ==>
                                 VersionOf(s.writers[w].phase.saw) == run[j].expected.value)
    decreases |run|
  {
    var n := |run| - 1;
    if j < n { ExpectedIsSeen(run[..n], j); }
  }

  /**
    A web save: the page shows the row current after `run[..i]` and sends its version back. If the save
    then commits, in a safe run, what it replaces is the row the page showed.
   */
  lemma {:induction false} PageRowIsReplaced(run: seq<Step>, i: nat, j: nat, w: WriterId)
    requires i <= j < |run| && ValidFrom(INITIAL, run) && ValidFrom(INITIAL, run + [Commit(w)]) && ValidFrom(INITIAL, run[..i])
    requires run[j].ReadVersion? && run[j].w == w && run[j].expected == Some(VersionOf(After(INITIAL, run[..i]).core))
    requires EveryCommitUndisturbed(run + [Commit(w)]) && HoldsArchive(After(INITIAL, run), w)
    ensures After(INITIAL, run).core == After(INITIAL, run[..i]).core
  {
    assert (run + [Commit(w)])[..|run|] == run;
    SafeIffUndisturbed(run);
    NoUnseenOverwrite(run, w);
    ExpectedIsSeen(run, j);
    VersionTellsRow(run, i);
  }

  // ---- what a disturbed commit does ----

  /** The current version is itself archived, and nobody holds an uncommitted row. */
  ghost predicate Wedged(s: State) {
    && s.core.Some? && s.core.value.version in s.history
    && forall w :: w in s.writers ==> !HoldsArchive(s, w) && !s.writers[w].phase.Inserted?
  }

  lemma WedgedStays(s: State, step: Step)
    requires Wedged(s) && Enabled(s, step)
    ensures var s' := Apply(s, step); Wedged(s') && s'.core == s.core && s'.history == s.history
  {
  }

  lemma {:induction false} WedgedForever(s: State, rest: seq<Step>)
    requires Wedged(s) && ValidFrom(s, rest)
    ensures Wedged(After(s, rest)) && After(s, rest).core == s.core && After(s, rest).history == s.history
  {
    if rest != [] {
      WedgedForever(s, rest[..|rest| - 1]);
      WedgedStays(After(s, rest[..|rest| - 1]), rest[|rest| - 1]);
    }
  }

  /**
    The first disturbed commit overwrites a row its writer never saw, and afterwards no save of
    that Self Core can ever succeed: every later archive statement meets the UNIQUE constraint.
   */
  lemma DisturbedCommitWedges(run: seq<Step>, w: WriterId, rest: seq<Step>)
    requires ValidFrom(INITIAL, run) && SafeThroughout(run)
    requires var s := After(INITIAL, run); Enabled(s, Commit(w)) && HoldsArchive(s, w) && !Undisturbed(s, w)
    requires ValidFrom(Apply(After(INITIAL, run), Commit(w)), rest)
    ensures var s := After(INITIAL, run); s.core != s.writers[w].phase.saw
    ensures var s' := Apply(After(INITIAL, run), Commit(w)); After(s', rest).core == s'.core && After(s', rest).history == s'.history
  {
    AlwaysHolds(run);
    SafeRunsGrow(run);
    var s := After(INITIAL, run);
    CommitSafeIff(s, w);
    var s' := Apply(s, Commit(w));
    assert Wedged(s') by {
      assert forall x :: x in s'.writers && x != w ==> !HoldsArchive(s, x);
      assert VersionOf(s.writers[w].phase.saw) + 1 in s'.history;
    }
    WedgedForever(s', rest);
  }

  // ---- such a run exists ----

  /** Two editors load version 1; the first saves; the second, having read the version before, saves too. */
  function LostUpdate(): seq<Step> {
    [ReadVersion(0, "first", None), InsertRow(0, 1, map[]), Commit(0),
     ReadVersion(1, "second", Some(1)), ReadVersion(2, "third", Some(1)),
     ArchiveRow(1), UpdateRow(1), Commit(1),
     ArchiveRow(2), UpdateRow(2), Commit(2)]
  }

  lemma RunSnoc(s: State, run: seq<Step>, step: Step)
    requires ValidFrom(s, run) && Enabled(After(s, run), step)
    ensures ValidFrom(s, run + [step]) && After(s, run + [step]) == Apply(After(s, run), step)
  {
    assert (run + [step])[..|run|] == run;
  }

  const FIRST_ROW := Core("first", 1)
  const SECOND_ROW := Core("second", 2)

  /** The first writer has committed. */
  const AFTER_FIRST := State(Some(FIRST_ROW), map[], map[0 := Writer("first", CommittedInsert)], 1)

  /** Both editors have read version 1. */
  const BOTH_READ := AFTER_FIRST.(writers := AFTER_FIRST.writers[1 := Writer("second", Reading(Some(FIRST_ROW), 1))]
                                       [2 := Writer("third", Reading(Some(FIRST_ROW), 1))])

  /** One of them has saved. */
  const ONE_SAVED := State(Some(SECOND_ROW), map[1 := Archive("first", Some(1))],
                    BOTH_READ.writers[1 := Writer("second", CommittedUpdate(FIRST_ROW))], 2)

  /** The other has archived whatever is current now. */
  const OTHER_ARCHIVED :=
    ONE_SAVED.(writers := ONE_SAVED.writers[2 := Writer("third", Archived(Some(FIRST_ROW), 1, SECOND_ROW, 2))])

  lemma LostUpdateBegins()
    ensures ValidFrom(INITIAL, LostUpdate()[..3]) && After(INITIAL, LostUpdate()[..3]) == AFTER_FIRST
  {
    var r := LostUpdate();
    ThreeSteps(INITIAL, [], r[0], r[1], r[2], AFTER_FIRST);
    assert [] + [r[0], r[1], r[2]] == r[..3];
  }

  lemma LostUpdateReads()
    ensures ValidFrom(INITIAL, LostUpdate()[..5]) && After(INITIAL, LostUpdate()[..5]) == BOTH_READ
  {
    var r := LostUpdate();
    LostUpdateBegins();
    TwoSteps(INITIAL, r[..3], r[3], r[4], BOTH_READ);
    assert r[..3] + [r[3], r[4]] == r[..5];
  }

  lemma LostUpdateContinues()
    ensures ValidFrom(INITIAL, LostUpdate()[..8]) && After(INITIAL, LostUpdate()[..8]) == ONE_SAVED
  {
    var r := LostUpdate();
    LostUpdateReads();
    ThreeSteps(INITIAL, r[..5], r[5], r[6], r[7], ONE_SAVED);
    assert r[..5] + [r[5], r[6], r[7]] == r[..8];
  }

  lemma LostUpdateArchives()
    ensures ValidFrom(INITIAL, LostUpdate()[..9]) && After(INITIAL, LostUpdate()[..9]) == OTHER_ARCHIVED
  {
    var r := LostUpdate();
    LostUpdateContinues();
    RunSnoc(INITIAL, r[..8], r[8]);
    assert r[..8] + [r[8]] == r[..9];
  }

  /** The second save discards content its writer never read, and version 2 is both current and archived. */
  lemma LostUpdateHappens()
    ensures ValidFrom(INITIAL, LostUpdate())
    ensures var s := After(INITIAL, LostUpdate());
            && s.core == Some(Core("third", 2))
            && 2 in s.history && s.history[2].content == "second"
            && !VersionInv(s)
  {
    var r := LostUpdate();
    LostUpdateArchives();
    LastSaveCommits();
    TwoSteps(INITIAL, r[..9], r[9], r[10], BOTH_SAVED);
    assert r[..9] + [r[9], r[10]] == r;
  }

  /** The other has committed. */
  const BOTH_SAVED := State(Some(Core("third", 2)), ONE_SAVED.history[2 := Archive("second", Some(2))],
                            ONE_SAVED.writers[2 := Writer("third", CommittedUpdate(SECOND_ROW))], 3)

  lemma LastSaveCommits()
    ensures Enabled(OTHER_ARCHIVED, UpdateRow(2)) && Enabled(Apply(OTHER_ARCHIVED, UpdateRow(2)), Commit(2))
    ensures Apply(Apply(OTHER_ARCHIVED, UpdateRow(2)), Commit(2)) == BOTH_SAVED
  {
  }

  lemma TwoSteps(s: State, run: seq<Step>, a: Step, b: Step, s': State)
    requires ValidFrom(s, run) && Enabled(After(s, run), a)
    requires Enabled(Apply(After(s, run), a), b) && s' == Apply(Apply(After(s, run), a), b)
    ensures ValidFrom(s, run + [a, b]) && After(s, run + [a, b]) == s'
  {
    RunSnoc(s, run, a);
    RunSnoc(s, run + [a], b);
    assert run + [a, b] == run + [a] + [b];
  }

  lemma ThreeSteps(s: State, run: seq<Step>, a: Step, b: Step, c: Step, s': State)
    requires ValidFrom(s, run) && Enabled(After(s, run), a)
    requires var s1 := Apply(After(s, run), a); Enabled(s1, b) && Enabled(Apply(s1, b), c) && s' == Apply(Apply(s1, b), c)
    ensures ValidFrom(s, run + [a, b, c]) && After(s, run + [a, b, c]) == s'
  {
    TwoSteps(s, run, a, b, Apply(Apply(After(s, run), a), b));
    RunSnoc(s, run + [a, b], c);
    assert run + [a, b, c] == run + [a, b] + [c];
  }
}
