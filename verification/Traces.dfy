/**
  What all writers together did to one table, as the run of that table's own operations. What is proved of
  the runs of Self Cores, adaptations and memories so holds of every reachable database, imports included.
 */
module Traces {
  import opened Prelude
  import opened Crypto
  import opened Store
  import opened KeyCache
  import opened Import
  import opened Portability
  import Reachability
  import SelfCore
  import Adaptations
  import Memories

  /** An operation with the key table it ran against. */
  datatype Timed<O> = Timed(keys: KeyTable, op: O)

  function Keys<O>(trace: seq<Timed<O>>): nat -> KeyTable {
    (i: nat) => if i < |trace| then trace[i].keys else map[]
  }

  function Ops<O>(trace: seq<Timed<O>>): (ops: seq<O>)
    ensures |ops| == |trace| && forall i :: 0 <= i < |trace| ==> ops[i] == trace[i].op
  {
    seq(|trace|, i requires 0 <= i < |trace| => trace[i].op)
  }

  // ---- memories ----

  /** The memory operations of one command: none, one, or those of an import that succeeds. */
  ghost function MemorySteps(t: Tables, sv: Memories.Services, c: Reachability.Command): seq<Timed<Memories.Op>> {
    match c
    case MemoryCommand(op) => [Timed(t.keys, op)]
    case ImportCommand(q) =>
      if Imported(t, sv, q).Ok? then BroughtMemories(Imported(t, sv, q).value.tables.keys, sv, q, TargetOf(t, sv, q), 0) else []
    case _ => []
  }

  ghost function MemoryTrace(sv: Memories.Services, cs: seq<Reachability.Command>): seq<Timed<Memories.Op>> {
    if cs == [] then []
    else
      var n := |cs| - 1;
      MemoryTrace(sv, cs[..n]) + MemorySteps(Reachability.Run(sv, cs[..n]), sv, cs[n])
  }

  /** One import of each memory of the bundle, from the `i`-th on. */
  function BroughtMemories(keys: KeyTable, sv: Memories.Services, q: Request, soul: SoulId, i: nat): seq<Timed<Memories.Op>>
    decreases |q.bundle.memories| - i
  {
    if i >= |q.bundle.memories| then []
    else
      [Timed(keys, MemoryOp(q.bundle.memories[i], soul, q.recompute, sv.embed, q.draws.memories(i), q.now))]
      + BroughtMemories(keys, sv, q, soul, i + 1)
  }

  function PlayMemories(sv: Memories.Services, trace: seq<Timed<Memories.Op>>): MemoryTable {
    Memories.Run(Keys(trace), sv, Ops(trace))
  }

  lemma {:induction false} SameMemoryRun(k1: nat -> KeyTable, k2: nat -> KeyTable, sv: Memories.Services, ops: seq<Memories.Op>)
    requires forall i: nat :: i < |ops| ==> k1(i) == k2(i)
    ensures Memories.Run(k1, sv, ops) == Memories.Run(k2, sv, ops)
  {
    if ops != [] { SameMemoryRun(k1, k2, sv, ops[..|ops| - 1]); }
  }

  lemma PlayMemorySnoc(sv: Memories.Services, trace: seq<Timed<Memories.Op>>, step: Timed<Memories.Op>)
    ensures PlayMemories(sv, trace + [step]) == Memories.Apply(step.keys, sv, PlayMemories(sv, trace), step.op).0
  {
    var longer, n := trace + [step], |trace|;
    assert Ops(longer)[..n] == Ops(trace);
    SameMemoryRun(Keys(longer), Keys(trace), sv, Ops(trace));
  }

  lemma NextMemory(keys: KeyTable, sv: Memories.Services, t: MemoryTable, soul: SoulId, q: Request, i: nat)
    requires i < |q.bundle.memories|
    requires MemoriesFrom(keys, sv, t, soul, q.bundle.memories, q.recompute, q.draws.memories, q.now, i).Ok?
    ensures var op := MemoryOp(q.bundle.memories[i], soul, q.recompute, sv.embed, q.draws.memories(i), q.now);
      && BroughtMemories(keys, sv, q, soul, i) == [Timed(keys, op)] + BroughtMemories(keys, sv, q, soul, i + 1)
      && MemoriesFrom(keys, sv, t, soul, q.bundle.memories, q.recompute, q.draws.memories, q.now, i)
         == MemoriesFrom(keys, sv, Memories.Apply(keys, sv, t, op).0, soul, q.bundle.memories, q.recompute,
                         q.draws.memories, q.now, i + 1)
  {
  }

  lemma {:induction false} PlayBroughtMemories(keys: KeyTable, sv: Memories.Services, q: Request, soul: SoulId,
                                               trace: seq<Timed<Memories.Op>>, i: nat)
    requires i <= |q.bundle.memories|
    requires MemoriesFrom(keys, sv, PlayMemories(sv, trace), soul, q.bundle.memories, q.recompute, q.draws.memories, q.now, i).Ok?
    ensures PlayMemories(sv, trace + BroughtMemories(keys, sv, q, soul, i))
         == MemoriesFrom(keys, sv, PlayMemories(sv, trace), soul, q.bundle.memories, q.recompute, q.draws.memories, q.now, i).value
    decreases |q.bundle.memories| - i
  {
    if i == |q.bundle.memories| {
      assert trace + [] == trace;
    } else {
      var step := Timed(keys, MemoryOp(q.bundle.memories[i], soul, q.recompute, sv.embed, q.draws.memories(i), q.now));
      NextMemory(keys, sv, PlayMemories(sv, trace), soul, q, i);
      PlayMemorySnoc(sv, trace, step);
      PlayBroughtMemories(keys, sv, q, soul, trace + [step], i + 1);
      Shift(trace, [step], BroughtMemories(keys, sv, q, soul, i + 1));
    }
  }

  /** The memories of a reachable database are those of a run of its memory operations. */
  lemma {:induction false} MemoriesAreARun(sv: Memories.Services, cs: seq<Reachability.Command>)
    ensures Reachability.Run(sv, cs).memories == PlayMemories(sv, MemoryTrace(sv, cs))
  {
    if cs != [] {
      var n := |cs| - 1;
      MemoriesAreARun(sv, cs[..n]);
      MemoryStepIsPlayed(Reachability.Run(sv, cs[..n]), sv, cs[n], MemoryTrace(sv, cs[..n]));
    }
  }

  lemma MemoryStepIsPlayed(t: Tables, sv: Memories.Services, c: Reachability.Command, trace: seq<Timed<Memories.Op>>)
    requires t.memories == PlayMemories(sv, trace)
    ensures Reachability.Step(t, sv, c).memories == PlayMemories(sv, trace + MemorySteps(t, sv, c))
  {
    if c.MemoryCommand? {
      PlayMemorySnoc(sv, trace, Timed(t.keys, c.memory));
    } else if c.ImportCommand? && Imported(t, sv, c.request).Ok? {
      var o := Parts(t, sv, c.request);
      PlayBroughtMemories(o.keys, sv, c.request, o.soul, trace, 0);
    } else {
      assert trace + [] == trace;
    }
  }

  // ---- Self Cores ----

  /** The Self Core operations of one command; an import whose bundle has no content writes no Self Core. */
  ghost function CoreSteps(t: Tables, sv: Memories.Services, c: Reachability.Command): seq<SelfCore.Op> {
    match c
    case CoreCommand(op) => (match TableDek(t.keys, sv.master, op.soul) case Ok(dek) => [op.(dek := dek)] case Err(_) => [])
    case ImportCommand(q) => if Imported(t, sv, q).Ok? then BroughtCore(t, sv, q) else []
    case _ => []
  }

  ghost function BroughtCore(t: Tables, sv: Memories.Services, q: Request): seq<SelfCore.Op>
    requires Imported(t, sv, q).Ok?
  {
    var soul := TargetOf(t, sv, q);
    match TableDek(Imported(t, sv, q).value.tables.keys, sv.master, soul)
    case Ok(dek) => [SelfCore.BundleImport(soul, q.bundle.core, q.user, dek, q.draws.core, q.draws.history)]
    case Err(_) => []
  }

  ghost function CoreTrace(sv: Memories.Services, cs: seq<Reachability.Command>): seq<SelfCore.Op> {
    if cs == [] then []
    else
      var n := |cs| - 1;
      CoreTrace(sv, cs[..n]) + CoreSteps(Reachability.Run(sv, cs[..n]), sv, cs[n])
  }

  lemma CoreSnoc(ops: seq<SelfCore.Op>, op: SelfCore.Op)
    ensures SelfCore.Run(ops + [op]) == SelfCore.Write(SelfCore.Run(ops), op).0
  {
    assert (ops + [op])[..|ops|] == ops;
  }

  lemma ImportedCore(t: Tables, sv: Memories.Services, q: Request) returns (op: SelfCore.Op)
    requires Imported(t, sv, q).Ok?
    ensures BroughtCore(t, sv, q) == [op]
    ensures SelfCore.Write(t.ledger, op).0 == Imported(t, sv, q).value.tables.ledger
  {
    var o := Parts(t, sv, q);
    op := SelfCore.BundleImport(o.soul, q.bundle.core, q.user, o.dek, q.draws.core, q.draws.history);
  }

  lemma CoreStepIsPlayed(t: Tables, sv: Memories.Services, c: Reachability.Command, ops: seq<SelfCore.Op>)
    requires t.ledger == SelfCore.Run(ops)
    ensures Reachability.Step(t, sv, c).ledger == SelfCore.Run(ops + CoreSteps(t, sv, c))
  {
    assert ops + [] == ops;
    if c.CoreCommand? && TableDek(t.keys, sv.master, c.core.soul).Ok? {
      CoreSnoc(ops, c.core.(dek := TableDek(t.keys, sv.master, c.core.soul).value));
    } else if c.ImportCommand? && Imported(t, sv, c.request).Ok? {
      var op := ImportedCore(t, sv, c.request);
      CoreSnoc(ops, op);
    }
  }

  /** The Self Cores of a reachable database are those of a run of its Self Core operations. */
  lemma {:induction false} CoresAreARun(sv: Memories.Services, cs: seq<Reachability.Command>)
    ensures Reachability.Run(sv, cs).ledger == SelfCore.Run(CoreTrace(sv, cs))
  {
    if cs != [] {
      var n := |cs| - 1;
      CoresAreARun(sv, cs[..n]);
      CoreStepIsPlayed(Reachability.Run(sv, cs[..n]), sv, cs[n], CoreTrace(sv, cs[..n]));
    }
  }

  // ---- adaptations ----

  ghost function AdaptationSteps(t: Tables, sv: Memories.Services, c: Reachability.Command): seq<Timed<Adaptations.Op>> {
    match c
    case AdaptationCommand(op) => [Timed(t.keys, op)]
    case ImportCommand(q) =>
      if Imported(t, sv, q).Ok? then BroughtAdaptations(Imported(t, sv, q).value.tables.keys, q, TargetOf(t, sv, q), 0) else []
    case _ => []
  }

  function BroughtAdaptations(keys: KeyTable, q: Request, soul: SoulId, i: nat): seq<Timed<Adaptations.Op>>
    decreases |q.bundle.adaptations| - i
  {
    if i >= |q.bundle.adaptations| then []
    else
      [Timed(keys, AdaptationOp(q.bundle.adaptations[i], soul, q.draws.adaptations(i), q.now))]
      + BroughtAdaptations(keys, q, soul, i + 1)
  }

  ghost function AdaptationTrace(sv: Memories.Services, cs: seq<Reachability.Command>): seq<Timed<Adaptations.Op>> {
    if cs == [] then []
    else
      var n := |cs| - 1;
      AdaptationTrace(sv, cs[..n]) + AdaptationSteps(Reachability.Run(sv, cs[..n]), sv, cs[n])
  }

  function PlayAdaptations(master: Key, trace: seq<Timed<Adaptations.Op>>): AdaptationTable {
    Adaptations.Run(Keys(trace), master, Ops(trace))
  }

  lemma {:induction false} SameAdaptationRun(k1: nat -> KeyTable, k2: nat -> KeyTable, master: Key, ops: seq<Adaptations.Op>)
    requires forall i: nat :: i < |ops| ==> k1(i) == k2(i)
    ensures Adaptations.Run(k1, master, ops) == Adaptations.Run(k2, master, ops)
  {
    if ops != [] { SameAdaptationRun(k1, k2, master, ops[..|ops| - 1]); }
  }

  lemma PlayAdaptationSnoc(master: Key, trace: seq<Timed<Adaptations.Op>>, step: Timed<Adaptations.Op>)
    ensures PlayAdaptations(master, trace + [step])
         == Adaptations.Apply(step.keys, master, PlayAdaptations(master, trace), step.op).0
  {
    var longer, n := trace + [step], |trace|;
    assert Ops(longer)[..n] == Ops(trace);
    SameAdaptationRun(Keys(longer), Keys(trace), master, Ops(trace));
  }

  lemma NextAdaptation(keys: KeyTable, master: Key, t: AdaptationTable, soul: SoulId, q: Request, i: nat)
    requires i < |q.bundle.adaptations|
    requires AdaptationsFrom(keys, master, t, soul, q.bundle.adaptations, q.draws.adaptations, q.now, i).Ok?
    ensures var op := AdaptationOp(q.bundle.adaptations[i], soul, q.draws.adaptations(i), q.now);
      && BroughtAdaptations(keys, q, soul, i) == [Timed(keys, op)] + BroughtAdaptations(keys, q, soul, i + 1)
      && AdaptationsFrom(keys, master, t, soul, q.bundle.adaptations, q.draws.adaptations, q.now, i)
         == AdaptationsFrom(keys, master, Adaptations.Apply(keys, master, t, op).0, soul, q.bundle.adaptations,
                            q.draws.adaptations, q.now, i + 1)
  {
  }

  lemma {:induction false} PlayBroughtAdaptations(keys: KeyTable, master: Key, q: Request, soul: SoulId,
                                                  trace: seq<Timed<Adaptations.Op>>, i: nat)
    requires i <= |q.bundle.adaptations|
    requires AdaptationsFrom(keys, master, PlayAdaptations(master, trace), soul, q.bundle.adaptations, q.draws.adaptations,
                             q.now, i).Ok?
    ensures PlayAdaptations(master, trace + BroughtAdaptations(keys, q, soul, i))
         == AdaptationsFrom(keys, master, PlayAdaptations(master, trace), soul, q.bundle.adaptations, q.draws.adaptations,
                            q.now, i).value
    decreases |q.bundle.adaptations| - i
  {
    if i == |q.bundle.adaptations| {
      assert trace + [] == trace;
    } else {
      var step := Timed(keys, AdaptationOp(q.bundle.adaptations[i], soul, q.draws.adaptations(i), q.now));
      NextAdaptation(keys, master, PlayAdaptations(master, trace), soul, q, i);
      PlayAdaptationSnoc(master, trace, step);
      PlayBroughtAdaptations(keys, master, q, soul, trace + [step], i + 1);
      Shift(trace, [step], BroughtAdaptations(keys, q, soul, i + 1));
    }
  }

  lemma AdaptationStepIsPlayed(t: Tables, sv: Memories.Services, c: Reachability.Command, trace: seq<Timed<Adaptations.Op>>)
    requires t.adaptations == PlayAdaptations(sv.master, trace)
    ensures Reachability.Step(t, sv, c).adaptations == PlayAdaptations(sv.master, trace + AdaptationSteps(t, sv, c))
  {
    if c.AdaptationCommand? {
      PlayAdaptationSnoc(sv.master, trace, Timed(t.keys, c.adaptation));
    } else if c.ImportCommand? && Imported(t, sv, c.request).Ok? {
      var o := Parts(t, sv, c.request);
      PlayBroughtAdaptations(o.keys, sv.master, c.request, o.soul, trace, 0);
    } else {
      assert trace + [] == trace;
    }
  }

  /** The adaptations of a reachable database are those of a run of its adaptation operations. */
  lemma {:induction false} AdaptationsAreARun(sv: Memories.Services, cs: seq<Reachability.Command>)
    ensures Reachability.Run(sv, cs).adaptations == PlayAdaptations(sv.master, AdaptationTrace(sv, cs))
  {
    if cs != [] {
      var n := |cs| - 1;
      AdaptationsAreARun(sv, cs[..n]);
      AdaptationStepIsPlayed(Reachability.Run(sv, cs[..n]), sv, cs[n], AdaptationTrace(sv, cs[..n]));
    }
  }
}
