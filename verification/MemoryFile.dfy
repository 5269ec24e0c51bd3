/**
  The memories of a bundle as a file: one JSON object per line, written by an export and read by an
  import, and the round trip of a soul through it.

  How numbers and times print is a parameter.
 */
module MemoryFile {
  import opened Prelude
  import opened Crypto
  import opened Store
  import opened Ordering
  import opened Ndjson
  import opened JsonText
  import opened Export
  import opened Import
  import opened Portability
  import opened RoundTrip
  import opened Acceptance
  import Embedding
  import Memories

  /** Which reals are floats; `str(x)` and `float(text)` for them; `t.isoformat()` and `str(n)`. */
  datatype Codec = Codec(float: real -> bool, show: real -> string, read: string -> Option<real>, iso: Time -> string,
                         count: nat -> string)

  /** Floats print as JSON numbers that read back, and times without line breaks. */
  ghost predicate Faithful(c: Codec) {
    && (forall x :: c.float(x) ==> IsNumeral(c.show(x)) && c.read(c.show(x)) == Some(x))
    && (forall n :: IsNumeral(c.count(n)))
    && (forall t :: Quiet(c.iso(t)))
  }

  predicate IsNumeral(s: string) { IsAtom(s) && s != "null" }

  const NULL := Atom("null")

  // -- there are such codecs: the one whose floats are the whole numbers, in decimal --

  predicate AllDigits(s: string) { forall i :: 0 <= i < |s| ==> '0' <= s[i] <= '9' }

  function Decimal(n: nat): string {
    (if n < 10 then "" else Decimal(n / 10)) + ['0' + (n % 10) as char]
  }

  function Number(s: string): nat
    requires AllDigits(s)
  {
    if s == "" then 0 else 10 * Number(s[..|s| - 1]) + (s[|s| - 1] as int - '0' as int)
  }

  function Whole(): Codec {
    Codec((x: real) => x >= 0.0 && x.Floor as real == x, (x: real) => if x >= 0.0 then Decimal(x.Floor) else "",
          (s: string) => if AllDigits(s) then Some(Number(s) as real) else None, (t: Time) => "", (n: nat) => Decimal(n))
  }

  lemma {:induction false} DigitsOfAll(s: string)
    requires AllDigits(s)
    ensures Digits(s) == |s|
  {
    if s != "" { DigitsOfAll(s[1..]); }
  }

  lemma {:induction false} DecimalReadsBack(n: nat)
    ensures var s := Decimal(n); s != "" && AllDigits(s) && (|s| == 1 || s[0] != '0') && Number(s) == n
    ensures n > 0 ==> Decimal(n)[0] != '0'
  {
    if n >= 10 {
      DecimalReadsBack(n / 10);
      assert Decimal(n)[..|Decimal(n)| - 1] == Decimal(n / 10);
    }
  }

  lemma DecimalIsNumeral(n: nat)
    ensures IsNumeral(Decimal(n))
  {
    var s := Decimal(n);
    DecimalReadsBack(n);
    DigitsOfAll(s);
    assert s[|s|..] == "";
  }

  lemma WholeIsFaithful(whole: nat)
    ensures Faithful(Whole()) && Whole().float(whole as real)
  {
    forall n: nat ensures IsNumeral(Decimal(n)) && AllDigits(Decimal(n)) && Number(Decimal(n)) == n {
      DecimalIsNumeral(n);
      DecimalReadsBack(n);
    }
  }

  // ---- one memory ----

  /** What an export never leaves out. */
  predicate Exported(m: MemoryRecord) { m.salience.Some? && m.status.Some? }

  /** The numbers in a memory are floats. */
  predicate Floats(c: Codec, m: MemoryRecord) {
    (m.salience.Some? ==> c.float(m.salience.value)) && forall i :: 0 <= i < |m.embedding| ==> c.float(m.embedding[i])
  }

  function StatusText(s: MemoryStatus): string {
    match s
    case Pending => "pending"
    case Confirmed => "confirmed"
    case Rejected => "rejected"
    case Forgotten => "forgotten"
    case OtherStatus(text) => text
  }

  function StatusOf(text: string): (s: MemoryStatus)
    ensures StatusText(s) == text
  {
    if text == "pending" then Pending
    else if text == "confirmed" then Confirmed
    else if text == "rejected" then Rejected
    else if text == "forgotten" then Forgotten
    else OtherStatus(text)
  }

  function Strings(s: seq<string>): Value { Arr(seq(|s|, i requires 0 <= i < |s| => Str(s[i]))) }

  function Numbers(s: seq<real>, show: real -> string): Value { Arr(seq(|s|, i requires 0 <= i < |s| => Atom(show(s[i])))) }

  function OrNull(o: Option<string>): Value { if o.Some? then Str(o.value) else NULL }

  function TimeOrNull(o: Option<Time>, iso: Time -> string): Value { if o.Some? then Str(iso(o.value)) else NULL }

  /** The record an export writes for a memory. */
  function Encode(c: Codec, m: MemoryRecord): Value
    requires Exported(m)
  {
    Obj([Member("content", Str(m.content)),
         Member("salience", Atom(c.show(m.salience.value))),
         Member("status", Str(StatusText(m.status.value))),
         Member("tags", Strings(m.tags)),
         Member("injection_flags", Strings(m.flags)),
         Member("source_client", OrNull(m.client)),
         Member("created_at", TimeOrNull(m.createdAt, c.iso)),
         Member("last_recalled_at", TimeOrNull(m.lastRecalledAt, c.iso)),
         Member("recall_count", Atom(c.count(m.recallCount))),
         Member("embedding", Numbers(m.embedding, c.show))])
  }

  /** `rec.get(name)`; of a name given twice the last value counts. */
  function Get(members: seq<Member>, name: string): Option<Value> {
    if members == [] then None
    else
      var n := |members| - 1;
      if members[n].name == name then Some(members[n].value) else Get(members[..n], name)
  }

  // -- fields: the outer None is a value of the wrong type --

  function TextField(v: Option<Value>): Option<Option<string>> {
    match v
    case None => Some(None)
    case Some(Str(text)) => Some(Some(text))
    case Some(_) => if v.value == NULL then Some(None) else None
  }

  function NumberField(v: Option<Value>, read: string -> Option<real>): Option<Option<real>> {
    match v
    case None => Some(None)
    case Some(Atom(text)) => (match read(text) case None => None case Some(x) => Some(Some(x)))
    case Some(_) => None
  }

  function Texts(items: seq<Value>): Option<seq<string>> {
    if items == [] then Some([])
    else
      match (items[0], Texts(items[1..]))
      case (Str(text), Some(rest)) => Some([text] + rest)
      case _ => None
  }

  function ListField(v: Option<Value>): Option<seq<string>> {
    match v
    case None => Some([])
    case Some(Arr(items)) => Texts(items)
    case Some(_) => if v.value == NULL then Some([]) else None
  }

  function Reals(items: seq<Value>, read: string -> Option<real>): Option<seq<real>> {
    if items == [] then Some([])
    else if !items[0].Atom? && !items[0].Str? then None
    else
      match (read(items[0].text), Reals(items[1..], read))
      case (Some(x), Some(rest)) => Some([x] + rest)
      case _ => None
  }

  /** A vector as a list or in its printed form; anything else is no vector. */
  function VectorField(v: Option<Value>, read: string -> Option<real>): Option<seq<real>> {
    match v
    case Some(Arr(items)) => Reals(items, read)
    case Some(Str(raw)) => Embedding.NormalizeEmbedding(raw, read)
    case _ => Some([])
  }

  /** What an import takes from a record; it does not look at times and recall counts. */
  function Decode(c: Codec, v: Value): Option<MemoryRecord> {
    if !v.Obj? then None
    else
      match (Get(v.members, "content"), NumberField(Get(v.members, "salience"), c.read), TextField(Get(v.members, "status")),
             ListField(Get(v.members, "tags")), ListField(Get(v.members, "injection_flags")),
             TextField(Get(v.members, "source_client")), VectorField(Get(v.members, "embedding"), c.read))
      case (Some(Str(content)), Some(salience), Some(status), Some(tags), Some(flags), Some(client), Some(embedding)) =>
        Some(MemoryRecord(content, salience, if status.Some? then Some(StatusOf(status.value)) else None, tags, flags, client,
                          embedding, None, None, 0))
      case _ => None
  }

  lemma {:induction false} GetIs(members: seq<Member>, i: nat)
    requires i < |members| && forall j :: i < j < |members| ==> members[j].name != members[i].name
    ensures Get(members, members[i].name) == Some(members[i].value)
  {
    var n := |members| - 1;
    if i < n { GetIs(members[..n], i); }
  }

  /** Lists, client and vector that are missing or null read as none; a missing salience or status is left to the import. */
  lemma MissingFieldsRead(c: Codec, content: string, members: seq<Member>)
    requires members == [Member("content", Str(content))] || members == Nulls(content)
    ensures Decode(c, Obj(members)) == Some(MemoryRecord(content, None, None, [], [], None, [], None, None, 0))
  {
    NeverThere(members, "salience");
    NeverThere(members, "status");
    GetIs(members, 0);
    if members == Nulls(content) {
      NullsAreThere(content);
    } else {
      NeverThere(members, "tags");
      NeverThere(members, "injection_flags");
      NeverThere(members, "source_client");
      NeverThere(members, "embedding");
    }
  }

  function Nulls(content: string): seq<Member> {
    [Member("content", Str(content)), Member("tags", NULL), Member("injection_flags", NULL), Member("source_client", NULL),
     Member("embedding", NULL)]
  }

  lemma NullsAreThere(content: string)
    ensures var ms := Nulls(content);
      && Get(ms, "tags") == Some(NULL) && Get(ms, "injection_flags") == Some(NULL)
      && Get(ms, "source_client") == Some(NULL) && Get(ms, "embedding") == Some(NULL)
  {
    var ms := Nulls(content);
    GetIs(ms, 1);
    GetIs(ms, 2);
    GetIs(ms, 3);
    GetIs(ms, 4);
  }

  lemma {:induction false} NeverThere(members: seq<Member>, name: string)
    requires forall i :: 0 <= i < |members| ==> members[i].name != name
    ensures Get(members, name) == None
  {
    if members != [] { NeverThere(members[..|members| - 1], name); }
  }

  lemma {:induction false} StringsReadBack(s: seq<string>)
    ensures ListField(Some(Strings(s))) == Some(s)
  {
    if s != [] {
      StringsReadBack(s[1..]);
      assert Strings(s).items[1..] == Strings(s[1..]).items;
      assert s == [s[0]] + s[1..];
    }
  }

  lemma NumberReadsBack(c: Codec, x: real)
    requires Faithful(c) && c.float(x)
    ensures IsNumeral(c.show(x)) && c.read(c.show(x)) == Some(x)
  {
  }

  lemma TimeIsQuiet(c: Codec, t: Time)
    requires Faithful(c)
    ensures Quiet(c.iso(t))
  {
  }

  lemma {:induction false} NumbersReadBack(c: Codec, s: seq<real>)
    requires Faithful(c) && forall i :: 0 <= i < |s| ==> c.float(s[i])
    ensures VectorField(Some(Numbers(s, c.show)), c.read) == Some(s)
  {
    if s != [] {
      NumbersReadBack(c, s[1..]);
      NumberReadsBack(c, s[0]);
      assert Numbers(s, c.show).items[1..] == Numbers(s[1..], c.show).items;
      assert s == [s[0]] + s[1..];
    }
  }

  /** The file also has the times and the recall count, which an import does not read. */
  lemma EncodedTimes(c: Codec, m: MemoryRecord)
    requires Exported(m)
    ensures var ms := Encode(c, m).members;
      && Get(ms, "created_at") == Some(if m.createdAt.Some? then Str(c.iso(m.createdAt.value)) else NULL)
      && Get(ms, "last_recalled_at") == Some(if m.lastRecalledAt.Some? then Str(c.iso(m.lastRecalledAt.value)) else NULL)
      && Get(ms, "recall_count") == Some(Atom(c.count(m.recallCount)))
  {
    GetIs(Encode(c, m).members, 6);
    GetIs(Encode(c, m).members, 7);
    GetIs(Encode(c, m).members, 8);
  }

  lemma EncodedFields(c: Codec, m: MemoryRecord)
    requires Exported(m)
    ensures var ms := Encode(c, m).members;
      && Get(ms, "content") == Some(Str(m.content))
      && Get(ms, "salience") == Some(Atom(c.show(m.salience.value)))
      && Get(ms, "status") == Some(Str(StatusText(m.status.value)))
      && Get(ms, "tags") == Some(Strings(m.tags))
      && Get(ms, "injection_flags") == Some(Strings(m.flags))
      && Get(ms, "source_client") == Some(OrNull(m.client))
      && Get(ms, "embedding") == Some(Numbers(m.embedding, c.show))
  {
    var ms := Encode(c, m).members;
    GetIs(ms, 0);
    GetIs(ms, 1);
    GetIs(ms, 2);
    GetIs(ms, 3);
    GetIs(ms, 4);
    GetIs(ms, 5);
    GetIs(ms, 9);
  }

  lemma StatusReadsBack(s: MemoryStatus)
    ensures StatusOf(StatusText(s)) == s
  {
  }

  lemma DecodeEncode(c: Codec, m: MemoryRecord)
    requires Faithful(c) && Exported(m) && Floats(c, m)
    ensures Decode(c, Encode(c, m)) == Some(KeptMemory(m))
  {
    EncodedFields(c, m);
    StringsReadBack(m.tags);
    StringsReadBack(m.flags);
    NumbersReadBack(c, m.embedding);
    StatusReadsBack(m.status.value);
    NumberReadsBack(c, m.salience.value);
  }

  /** No string of the memory holds U+0085, U+2028 or U+2029. */
  predicate QuietMemory(m: MemoryRecord) {
    && Quiet(m.content) && (m.status.Some? ==> Quiet(StatusText(m.status.value)))
    && (forall i :: 0 <= i < |m.tags| ==> Quiet(m.tags[i])) && (forall i :: 0 <= i < |m.flags| ==> Quiet(m.flags[i]))
    && (m.client.Some? ==> Quiet(m.client.value))
  }

  lemma NamesAreQuiet()
    ensures Quiet("content") && Quiet("salience") && Quiet("status") && Quiet("tags") && Quiet("injection_flags")
    ensures Quiet("source_client") && Quiet("created_at") && Quiet("last_recalled_at") && Quiet("recall_count")
    ensures Quiet("embedding")
  {
  }

  lemma EncodedIsQuiet(c: Codec, m: MemoryRecord)
    requires Faithful(c) && Exported(m)
    ensures QuietValue(Encode(c, m)) <==> QuietMemory(m)
  {
    var ms := Encode(c, m).members;
    NamesAreQuiet();
    StringsAreQuiet(m.tags);
    StringsAreQuiet(m.flags);
    assert ms[0].value == Str(m.content) && ms[2].value == Str(StatusText(m.status.value));
    assert ms[3].value == Strings(m.tags) && ms[4].value == Strings(m.flags) && ms[5].value == OrNull(m.client);
    if m.createdAt.Some? { TimeIsQuiet(c, m.createdAt.value); }
    if m.lastRecalledAt.Some? { TimeIsQuiet(c, m.lastRecalledAt.value); }
    assert QuietValue(ms[6].value) && QuietValue(ms[7].value) && QuietValue(ms[9].value);
  }

  lemma StringsAreQuiet(s: seq<string>)
    ensures QuietValue(Strings(s)) <==> forall i :: 0 <= i < |s| ==> Quiet(s[i])
  {
    var items := Strings(s).items;
    assert forall i :: 0 <= i < |s| ==> items[i] == Str(s[i]);
  }

  lemma NumbersAreValid(c: Codec, s: seq<real>)
    requires Faithful(c) && forall i :: 0 <= i < |s| ==> c.float(s[i])
    ensures Valid(Numbers(s, c.show))
  {
    forall i | 0 <= i < |s| ensures Valid(Numbers(s, c.show).items[i]) {
      NumberReadsBack(c, s[i]);
    }
  }

  lemma EncodedIsValid(c: Codec, m: MemoryRecord)
    requires Faithful(c) && Exported(m) && Floats(c, m)
    ensures Valid(Encode(c, m))
  {
    NumberReadsBack(c, m.salience.value);
    assert IsAtom(NULL.text) && IsNumeral(c.count(m.recallCount));
    NumbersAreValid(c, m.embedding);
    assert forall i :: 0 <= i < 10 ==> Valid(Encode(c, m).members[i].value);
  }

  // ---- the file ----

  function Line(c: Codec, m: MemoryRecord): Record
    requires Exported(m)
  {
    Dump(Encode(c, m))
  }

  function LinesOf(c: Codec, ms: seq<MemoryRecord>): seq<Record>
    requires forall i :: 0 <= i < |ms| ==> Exported(ms[i])
  {
    seq(|ms|, i requires 0 <= i < |ms| => Line(c, ms[i]))
  }

  /** memories.ndjson */
  function FileOf(c: Codec, ms: seq<MemoryRecord>): string
    requires forall i :: 0 <= i < |ms| ==> Exported(ms[i])
  {
    WriteLines(LinesOf(c, ms))
  }

  function DecodeAll(c: Codec, recs: seq<Record>): Option<seq<MemoryRecord>> {
    if recs == [] then Some([])
    else
      match Load(recs[0])
      case None => None
      case Some(v) =>
        match (Decode(c, v), DecodeAll(c, recs[1..]))
        case (Some(m), Some(rest)) => Some([m] + rest)
        case _ => None
  }

  function ReadMemories(c: Codec, text: string): Option<seq<MemoryRecord>> {
    match ReadLines(text)
    case None => None
    case Some(recs) => DecodeAll(c, recs)
  }

  lemma LineReadsBack(c: Codec, m: MemoryRecord)
    requires Faithful(c) && Exported(m) && Floats(c, m)
    ensures Decodes(c, Line(c, m), KeptMemory(m))
    ensures IsObject(Line(c, m)) && (QuietRecord(Line(c, m)) <==> QuietMemory(m))
  {
    EncodedIsValid(c, m);
    LoadDump(Encode(c, m));
    DumpIsRecord(Encode(c, m));
    EncodedIsQuiet(c, m);
    DecodeEncode(c, m);
  }

  /** The line is the record of the memory, but for what an import ignores. */
  predicate Decodes(c: Codec, rec: Record, m: MemoryRecord) {
    Load(rec).Some? && Decode(c, Load(rec).value) == Some(m)
  }

  lemma FirstDecodes(c: Codec, recs: seq<Record>, m: MemoryRecord, rest: seq<MemoryRecord>)
    requires recs != [] && Decodes(c, recs[0], m) && DecodeAll(c, recs[1..]) == Some(rest)
    ensures DecodeAll(c, recs) == Some([m] + rest)
  {
  }

  lemma {:induction false} AllDecode(c: Codec, recs: seq<Record>, ms: seq<MemoryRecord>)
    requires |recs| == |ms| && forall i :: 0 <= i < |ms| ==> Decodes(c, recs[i], ms[i])
    ensures DecodeAll(c, recs) == Some(ms)
  {
    if ms != [] {
      AllDecode(c, recs[1..], ms[1..]);
      FirstDecodes(c, recs, ms[0], ms[1..]);
      assert ms == [ms[0]] + ms[1..];
    }
  }

  predicate QuietMemories(ms: seq<MemoryRecord>) { forall i :: 0 <= i < |ms| ==> QuietMemory(ms[i]) }

  /** Exported memories read back from their file, but for what an import ignores, exactly when no string has a raw break. */
  lemma FileReadsBack(c: Codec, ms: seq<MemoryRecord>)
    requires Faithful(c) && forall i :: 0 <= i < |ms| ==> Exported(ms[i]) && Floats(c, ms[i])
    ensures ReadMemories(c, FileOf(c, ms)) == if QuietMemories(ms) then Some(Map(KeptMemory, ms)) else None
  {
    var recs := LinesOf(c, ms);
    forall i | 0 <= i < |ms|
      ensures IsObject(recs[i]) && (QuietRecord(recs[i]) <==> QuietMemory(ms[i])) && Decodes(c, recs[i], KeptMemory(ms[i]))
    {
      LineReadsBack(c, ms[i]);
    }
    LinesReadBack(recs);
    AllDecode(c, recs, Map(KeptMemory, ms));
  }

  // ---- the round trip through the file ----

  lemma {:induction false} ImportIgnores(keys: KeyTable, sv: Memories.Services, t: MemoryTable, soul: SoulId,
                                         s: seq<MemoryRecord>, recompute: bool, draw: nat -> Draw, now: Time, i: nat)
    requires i <= |s|
    ensures MemoriesFrom(keys, sv, t, soul, Map(KeptMemory, s), recompute, draw, now, i)
         == MemoriesFrom(keys, sv, t, soul, s, recompute, draw, now, i)
    decreases |s| - i
  {
    if i < |s| {
      var op := MemoryOp(s[i], soul, recompute, sv.embed, draw(i), now);
      assert MemoryOp(KeptMemory(s[i]), soul, recompute, sv.embed, draw(i), now) == op;
      ImportIgnores(keys, sv, Memories.Apply(keys, sv, t, op).0, soul, s, recompute, draw, now, i + 1);
    }
  }

  function AsRead(b: Bundle): Bundle { b.(memories := Map(KeptMemory, b.memories)) }

  lemma ImportedAsRead(t: Tables, sv: Memories.Services, q: Request)
    ensures Imported(t, sv, q.(bundle := AsRead(q.bundle))) == Imported(t, sv, q)
  {
    if Validation(q).Pass? && Open(t.keys, sv.master, q.target).Ok? {
      var o := Open(t.keys, sv.master, q.target).value;
      ImportIgnores(o.keys, sv, t.memories, o.soul, q.bundle.memories, q.recompute, q.draws.memories, q.now, 0);
    }
  }

  /** The bundle from the manifest and the file of memories; `None` when the file does not read. */
  function ReadBundle(c: Codec, manifest: Bundle, file: string): Option<Bundle> {
    match ReadMemories(c, file)
    case None => None
    case Some(ms) => Some(manifest.(memories := ms))
  }

  lemma ExportReadsBack(b: Bundle, t: Tables, master: Key, soul: SoulId, all: bool, c: Codec)
    requires Healthy(t, master) && IsExport(b, t, soul, all)
    requires Faithful(c) && forall i :: 0 <= i < |b.memories| ==> Floats(c, b.memories[i])
    ensures forall i :: 0 <= i < |b.memories| ==> Exported(b.memories[i])
    ensures ReadBundle(c, b, FileOf(c, b.memories)) == if QuietMemories(b.memories) then Some(AsRead(b)) else None
  {
    ExportIsComplete(b, t, master, soul, all);
    FileReadsBack(c, b.memories);
  }

  /**
    Through the file: it reads if and only if no string of an exported memory holds U+0085, U+2028 or
    U+2029; what is then read imports as a new soul, and every export of that soul is as in
    `RoundTrip.SecondExportEqualsFirst`.
   */
  lemma FileRoundTrip(b: Bundle, t: Tables, master: Key, soul: SoulId, all: bool, target: Tables,
                      sv: Memories.Services, q: Request, b': Bundle, c: Codec)
    requires Healthy(t, master) && IsExport(b, t, soul, all)
    requires Faithful(c) && forall i :: 0 <= i < |b.memories| ==> Floats(c, b.memories[i])
    requires Healthy(target, sv.master) && AsNewSoul(q, b, target) && EmbedsRight(sv.embed)
    ensures forall i :: 0 <= i < |b.memories| ==> Exported(b.memories[i])
    ensures ReadBundle(c, b, FileOf(c, b.memories)) == if QuietMemories(b.memories) then Some(AsRead(b)) else None
    ensures Imported(target, sv, q.(bundle := AsRead(b))).Ok?
    ensures IsExport(b', Imported(target, sv, q.(bundle := AsRead(b))).value.tables, q.target.id, all) ==>
      SameRows(b, b', q.recompute, sv.embed) && (b'.core == b.core <==> CoreImports(t.ledger, soul))
  {
    ExportReadsBack(b, t, master, soul, all, c);
    ImportedAsRead(target, sv, q);
    SecondExportEqualsFirst(b, t, master, soul, all, target, sv, q, b');
  }
}
