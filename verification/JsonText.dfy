/**
  JSON texts as `json.dumps` prints them on one line and `json.loads` reads them.

  A text is first cut into the tokens of `Ndjson`; what lies between string literals is then read
  character by character, so an item is a literal or one character. `Reads(s, v)` says that `s` reads
  as `v` however the text goes on, and is proved along the structure of the value.
 */
module JsonText {
  import opened Prelude
  import opened Ndjson

  /** A number or a word keeps its text. */
  datatype Value = Str(text: string) | Atom(text: string) | Arr(items: seq<Value>) | Obj(members: seq<Member>)

  datatype Member = Member(name: string, value: Value)

  /** A string literal, or one character outside of literals. */
  datatype Item = Lit(text: string) | Ch(c: char)

  // ---- the grammar of section 6 of RFC 8259, with the words Python adds ----

  predicate AtomChar(c: char) {
    '0' <= c <= '9' || 'a' <= c <= 'z' || 'A' <= c <= 'Z' || c == '+' || c == '-' || c == '.'
  }

  function Digits(s: string): (k: nat)
    ensures k <= |s|
  {
    if s != "" && '0' <= s[0] <= '9' then 1 + Digits(s[1..]) else 0
  }

  predicate IsExponent(s: string) {
    s == "" || ((s[0] == 'e' || s[0] == 'E')
                && var t := if |s| > 1 && (s[1] == '+' || s[1] == '-') then s[2..] else s[1..];
                   t != "" && Digits(t) == |t|)
  }

  predicate IsFraction(s: string) {
    if s != "" && s[0] == '.' then Digits(s[1..]) > 0 && IsExponent(s[1 + Digits(s[1..])..]) else IsExponent(s)
  }

  predicate IsNumber(s: string) {
    var t := if s != "" && s[0] == '-' then s[1..] else s;
    var k := Digits(t);
    k > 0 && (k == 1 || t[0] != '0') && IsFraction(t[k..])
  }

  predicate IsAtom(s: string) {
    && s != "" && (forall i :: 0 <= i < |s| ==> AtomChar(s[i]))
    && (IsNumber(s) || s == "true" || s == "false" || s == "null" || s == "NaN" || s == "Infinity" || s == "-Infinity")
  }

  // -- that is, said by the parts of a number --

  ghost predicate AllDigits(s: string) { s != "" && forall i :: 0 <= i < |s| ==> '0' <= s[i] <= '9' }

  lemma {:induction false} DigitsAre(s: string)
    ensures forall i :: 0 <= i < Digits(s) ==> '0' <= s[i] <= '9'
    ensures Digits(s) < |s| ==> !('0' <= s[Digits(s)] <= '9')
  {
    if s != "" && '0' <= s[0] <= '9' {
      DigitsAre(s[1..]);
      forall i | 0 <= i < Digits(s) ensures '0' <= s[i] <= '9' {
        if i > 0 { assert s[i] == s[1..][i - 1]; }
      }
      assert Digits(s) < |s| ==> s[Digits(s)] == s[1..][Digits(s) - 1];
    }
  }

  /** So many digits, and no more. */
  lemma DigitsEnd(s: string, k: nat)
    requires k <= |s| && (forall i :: 0 <= i < k ==> '0' <= s[i] <= '9') && (k < |s| ==> !('0' <= s[k] <= '9'))
    ensures Digits(s) == k
  {
    DigitsAre(s);
  }

  ghost predicate Exponent(s: string) {
    || s == ""
    || ((s[0] == 'e' || s[0] == 'E')
        && (AllDigits(s[1..]) || (|s| > 1 && (s[1] == '+' || s[1] == '-') && AllDigits(s[2..]))))
  }

  ghost predicate Fraction(s: string) { s == "" || (s[0] == '.' && AllDigits(s[1..])) }

  /** No zero leads. */
  ghost predicate Whole(s: string) { AllDigits(s) && (|s| > 1 ==> s[0] != '0') }

  ghost predicate Sign(s: string) { s == "" || s == "-" }

  lemma ExponentIs(s: string)
    ensures IsExponent(s) <==> Exponent(s)
  {
    if s != "" {
      var t := if |s| > 1 && (s[1] == '+' || s[1] == '-') then s[2..] else s[1..];
      DigitsAre(t);
      if AllDigits(t) { DigitsEnd(t, |t|); }
      if |s| > 1 && (s[1] == '+' || s[1] == '-') { assert !AllDigits(s[1..]) by { assert s[1..][0] == s[1]; } }
    }
  }

  lemma FractionParts(s: string) returns (fraction: string, exponent: string)
    requires IsFraction(s)
    ensures s == fraction + exponent && Fraction(fraction) && Exponent(exponent)
  {
    if s != "" && s[0] == '.' {
      var k := Digits(s[1..]);
      DigitsAre(s[1..]);
      fraction, exponent := s[..1 + k], s[1 + k..];
      assert fraction[1..] == s[1..][..k];
      ExponentIs(exponent);
    } else {
      fraction, exponent := "", s;
      assert s == "" + s;
      ExponentIs(s);
    }
  }

  lemma FractionMakes(fraction: string, exponent: string)
    requires Fraction(fraction) && Exponent(exponent)
    ensures IsFraction(fraction + exponent)
    ensures fraction + exponent != "" ==> !('0' <= (fraction + exponent)[0] <= '9')
  {
    var s := fraction + exponent;
    ExponentIs(exponent);
    if fraction == "" {
      assert s == exponent;
    } else {
      assert s[1..] == fraction[1..] + exponent;
      DigitsEnd(s[1..], |fraction| - 1);
      assert s[|fraction|..] == exponent;
    }
  }

  lemma Regrouped(a: string, b: string, c: string, d: string)
    ensures a + b + c + d == a + (b + (c + d))
  {
  }

  lemma SignSplit(s: string) returns (sign: string, t: string)
    ensures s == sign + t && Sign(sign) && t == if s != "" && s[0] == '-' then s[1..] else s
  {
    if s != "" && s[0] == '-' {
      sign, t := "-", s[1..];
    } else {
      sign, t := "", s;
    }
  }

  lemma WholeSplit(t: string) returns (whole: string, rest: string)
    requires Digits(t) > 0 && (Digits(t) == 1 || t[0] != '0')
    ensures t == whole + rest && Whole(whole) && rest == t[Digits(t)..]
  {
    DigitsAre(t);
    whole, rest := t[..Digits(t)], t[Digits(t)..];
  }

  lemma NumberParts(s: string) returns (sign: string, whole: string, fraction: string, exponent: string)
    requires IsNumber(s)
    ensures s == sign + whole + fraction + exponent
    ensures Sign(sign) && Whole(whole) && Fraction(fraction) && Exponent(exponent)
  {
    var t, rest;
    sign, t := SignSplit(s);
    whole, rest := WholeSplit(t);
    fraction, exponent := FractionParts(rest);
    Regrouped(sign, whole, fraction, exponent);
  }

  lemma NumberMakes(sign: string, whole: string, fraction: string, exponent: string)
    requires Sign(sign) && Whole(whole) && Fraction(fraction) && Exponent(exponent)
    ensures IsNumber(sign + whole + fraction + exponent)
  {
    var rest := fraction + exponent;
    FractionMakes(fraction, exponent);
    var t := whole + rest;
    Regrouped(sign, whole, fraction, exponent);
    DigitsEnd(t, |whole|);
    assert t[|whole|..] == rest && t[0] == whole[0];
    assert (sign + t)[|sign|..] == t;
  }

  /** A number is a sign, a whole part, a fraction and an exponent, of which only the whole part is always there. */
  lemma NumberIs(s: string)
    ensures IsNumber(s) <==>
      exists sign, whole, fraction, exponent ::
        && s == sign + whole + fraction + exponent
        && Sign(sign) && Whole(whole) && Fraction(fraction) && Exponent(exponent)
  {
    if IsNumber(s) { var sign, whole, fraction, exponent := NumberParts(s); }
    forall sign, whole, fraction, exponent |
      && s == sign + whole + fraction + exponent
      && Sign(sign) && Whole(whole) && Fraction(fraction) && Exponent(exponent)
    {
      NumberMakes(sign, whole, fraction, exponent);
    }
  }

  ghost predicate AtomChars(s: string) { forall i :: 0 <= i < |s| ==> AtomChar(s[i]) }

  lemma PartsAreAtomChars(sign: string, whole: string, fraction: string, exponent: string)
    requires Sign(sign) && Whole(whole) && Fraction(fraction) && Exponent(exponent)
    ensures AtomChars(sign) && AtomChars(whole) && AtomChars(fraction) && AtomChars(exponent)
  {
    assert forall i :: 0 < i < |fraction| ==> fraction[i] == fraction[1..][i - 1];
    assert forall i :: 0 < i < |exponent| ==> exponent[i] == exponent[1..][i - 1];
    assert forall i :: 1 < i < |exponent| ==> exponent[i] == exponent[2..][i - 2];
  }

  /** What stands for itself is a number or one of six words. */
  lemma AtomIs(s: string)
    ensures IsAtom(s) <==> IsNumber(s) || s in {"true", "false", "null", "NaN", "Infinity", "-Infinity"}
  {
    if IsNumber(s) {
      var sign, whole, fraction, exponent := NumberParts(s);
      PartsAreAtomChars(sign, whole, fraction, exponent);
    }
  }

  /** Every number or word in it is one. */
  predicate Valid(v: Value) {
    match v
    case Str(_) => true
    case Atom(text) => IsAtom(text)
    case Arr(items) => forall i :: 0 <= i < |items| ==> Valid(items[i])
    case Obj(members) => forall i :: 0 <= i < |members| ==> Valid(members[i].value)
  }

  // ---- printing ----

  function Chars(s: string): (r: seq<Item>)
    ensures |r| == |s| && forall i :: 0 <= i < |s| ==> r[i] == Ch(s[i])
  {
    seq(|s|, i requires 0 <= i < |s| => Ch(s[i]))
  }

  /** `json.dumps(v, ensure_ascii=False)`, with its separators ", " and ": ". */
  function Shown(v: Value): seq<Item> {
    match v
    case Str(text) => [Lit(text)]
    case Atom(text) => Chars(text)
    case Arr(items) => Enclosed('[', seq(|items|, i requires 0 <= i < |items| => Shown(items[i])), ']')
    case Obj(members) =>
      Enclosed('{', seq(|members|, i requires 0 <= i < |members| => Head(members[i].name) + Shown(members[i].value)), '}')
  }

  function Head(name: string): seq<Item> { [Lit(name), Ch(':'), Ch(' ')] }

  function Enclosed(open: char, parts: seq<seq<Item>>, close: char): seq<Item> {
    [Ch(open)] + if parts == [] then [Ch(close)] else Listed(parts, close)
  }

  function Listed(parts: seq<seq<Item>>, close: char): seq<Item>
    requires parts != []
  {
    parts[0] + if |parts| == 1 then [Ch(close)] else [Ch(','), Ch(' ')] + Listed(parts[1..], close)
  }

  // ---- reading ----

  datatype Parsed<T> = Parsed(value: T, rest: seq<Item>)

  predicate IsBlank(x: Item) { x == Ch(' ') || x == Ch('\t') || x == Ch('\n') || x == Ch('\r') }

  function SkipSpace(s: seq<Item>): (r: seq<Item>)
    ensures |r| <= |s|
  {
    if s != [] && IsBlank(s[0]) then SkipSpace(s[1..]) else s
  }

  function AtomText(s: seq<Item>): (text: string)
    ensures |text| <= |s|
  {
    if s != [] && s[0].Ch? && AtomChar(s[0].c) then [s[0].c] + AtomText(s[1..]) else ""
  }

  function ParseValue(s: seq<Item>): (r: Option<Parsed<Value>>)
    ensures r.Some? ==> |r.value.rest| < |s|
    decreases |s|, 0
  {
    var t := SkipSpace(s);
    if t == [] then None
    else if t[0].Lit? then Some(Parsed(Str(t[0].text), t[1..]))
    else if t[0].c == '[' then AsArray(ParseArray(SkipSpace(t[1..])))
    else if t[0].c == '{' then AsObject(ParseObject(SkipSpace(t[1..])))
    else
      var text := AtomText(t);
      if IsAtom(text) then Some(Parsed(Atom(text), t[|text|..])) else None
  }

  function AsArray(r: Option<Parsed<seq<Value>>>): Option<Parsed<Value>> {
    match r
    case None => None
    case Some(p) => Some(Parsed(Arr(p.value), p.rest))
  }

  function AsObject(r: Option<Parsed<seq<Member>>>): Option<Parsed<Value>> {
    match r
    case None => None
    case Some(p) => Some(Parsed(Obj(p.value), p.rest))
  }

  function Cons<T>(x: T, r: Option<Parsed<seq<T>>>): Option<Parsed<seq<T>>> {
    match r
    case None => None
    case Some(p) => Some(Parsed([x] + p.value, p.rest))
  }

  /** After the opening bracket. */
  function ParseArray(s: seq<Item>): (r: Option<Parsed<seq<Value>>>)
    ensures r.Some? ==> |r.value.rest| < |s|
    decreases |s|, 2
  {
    if At(s, ']') then Some(Parsed([], s[1..])) else ParseItems(s)
  }

  function ParseObject(s: seq<Item>): (r: Option<Parsed<seq<Member>>>)
    ensures r.Some? ==> |r.value.rest| < |s|
    decreases |s|, 2
  {
    if At(s, '}') then Some(Parsed([], s[1..])) else ParseMembers(s)
  }

  predicate At(s: seq<Item>, c: char) { s != [] && s[0] == Ch(c) }

  /** From an element on. */
  function ParseItems(s: seq<Item>): (r: Option<Parsed<seq<Value>>>)
    ensures r.Some? ==> |r.value.rest| < |s|
    decreases |s|, 1
  {
    match ParseValue(s)
    case None => None
    case Some(p) =>
      var t := SkipSpace(p.rest);
      if At(t, ']') then Some(Parsed([p.value], t[1..]))
      else if At(t, ',') then Cons(p.value, ParseItems(t[1..]))
      else None
  }

  /** From a name on. */
  function ParseMembers(s: seq<Item>): (r: Option<Parsed<seq<Member>>>)
    ensures r.Some? ==> |r.value.rest| < |s|
    decreases |s|, 1
  {
    var t := SkipSpace(s);
    if t == [] || !t[0].Lit? || !At(SkipSpace(t[1..]), ':') then None
    else
      match ParseValue(SkipSpace(t[1..])[1..])
      case None => None
      case Some(p) =>
        var m, u := Member(t[0].text, p.value), SkipSpace(p.rest);
        if At(u, '}') then Some(Parsed([m], u[1..]))
        else if At(u, ',') then Cons(m, ParseMembers(u[1..]))
        else None
  }

  // ---- items and tokens ----

  /** The items of a text from its tokens. */
  function Explode(rec: Record): seq<Item> {
    if rec == [] then []
    else (match rec[0] case Quoted(text) => [Lit(text)] case Bare(text) => Chars(text)) + Explode(rec[1..])
  }

  /** The tokens of a text from its items. */
  function Gather(s: seq<Item>): Record {
    if s == [] then []
    else
      var rest := Gather(s[1..]);
      match s[0]
      case Lit(text) => [Quoted(text)] + rest
      case Ch(c) => if rest != [] && rest[0].Bare? then [Bare([c] + rest[0].text)] + rest[1..] else [Bare([c])] + rest
  }

  /** `json.loads(line)` */
  function Load(rec: Record): Option<Value> {
    match ParseValue(Explode(rec))
    case None => None
    case Some(Parsed(v, rest)) => if SkipSpace(rest) == [] then Some(v) else None
  }

  /** `json.dumps(v, ensure_ascii=False)` */
  function Dump(v: Value): Record { Gather(Shown(v)) }

  lemma {:induction false} ExplodeGather(s: seq<Item>)
    ensures Explode(Gather(s)) == s
  {
    if s != [] {
      ExplodeGather(s[1..]);
      var rest := Gather(s[1..]);
      assert s == [s[0]] + s[1..];
      if s[0].Ch? {
        if rest != [] && rest[0].Bare? {
          assert Chars([s[0].c] + rest[0].text) == [s[0]] + Chars(rest[0].text);
        } else {
          assert Chars([s[0].c]) == [s[0]];
        }
      }
    }
  }

  /** Outside of literals a JSON text is printable ASCII. */
  predicate Printable(s: seq<Item>) {
    forall i :: 0 <= i < |s| && s[i].Ch? ==> ' ' <= s[i].c <= '~' && s[i].c != '\"'
  }

  lemma {:induction false} GatherIsTokens(s: seq<Item>)
    requires Printable(s)
    ensures Tokens(Gather(s))
    ensures s != [] && s[0].Ch? ==> Gather(s) != [] && Gather(s)[0].Bare? && Gather(s)[0].text[0] == s[0].c
  {
    if s != [] { GatherIsTokens(s[1..]); }
  }

  predicate QuietItems(s: seq<Item>) {
    forall i :: 0 <= i < |s| && s[i].Lit? ==> Quiet(s[i].text)
  }

  lemma QuietRecordTail(rec: Record)
    requires rec != []
    ensures QuietRecord(rec) <==> (rec[0].Quoted? ==> Quiet(rec[0].text)) && QuietRecord(rec[1..])
  {
    if QuietRecord(rec[1..]) {
      assert forall i :: 0 < i < |rec| ==> rec[i] == rec[1..][i - 1];
    }
  }

  lemma QuietItemsTail(s: seq<Item>)
    requires s != []
    ensures QuietItems(s) <==> (s[0].Lit? ==> Quiet(s[0].text)) && QuietItems(s[1..])
  {
    if QuietItems(s[1..]) {
      assert forall i :: 0 < i < |s| ==> s[i] == s[1..][i - 1];
    }
  }

  lemma {:induction false} GatherIsQuiet(s: seq<Item>)
    ensures QuietRecord(Gather(s)) <==> QuietItems(s)
  {
    if s != [] {
      GatherIsQuiet(s[1..]);
      QuietItemsTail(s);
      QuietRecordTail(Gather(s));
      if Gather(s[1..]) != [] { QuietRecordTail(Gather(s[1..])); }
    }
  }

  // ---- what was printed reads back ----

  /** What follows a value does not run into it. */
  predicate Ends(rest: seq<Item>) { rest != [] && rest[0].Ch? ==> !AtomChar(rest[0].c) }

  lemma {:induction false} AtomReadsBack(text: string, rest: seq<Item>)
    requires (forall i :: 0 <= i < |text| ==> AtomChar(text[i])) && Ends(rest)
    ensures AtomText(Chars(text) + rest) == text
  {
    if text == "" {
      assert Chars(text) + rest == rest;
    } else {
      AtomReadsBack(text[1..], rest);
      assert (Chars(text) + rest)[1..] == Chars(text[1..]) + rest;
    }
  }

  /** How a printed value starts. */
  predicate Starts(s: seq<Item>) {
    s != [] && (s[0].Lit? || s[0].c == '[' || s[0].c == '{' || AtomChar(s[0].c))
  }

  lemma SpaceIsSkipped(s: seq<Item>)
    ensures SkipSpace([Ch(' ')] + s) == SkipSpace(s)
  {
    assert ([Ch(' ')] + s)[1..] == s;
  }

  lemma SpaceBeforeValue(s: seq<Item>)
    ensures ParseValue([Ch(' ')] + s) == ParseValue(s)
  {
    SpaceIsSkipped(s);
  }

  lemma SpaceBeforeItem(s: seq<Item>)
    ensures ParseItems([Ch(' ')] + s) == ParseItems(s)
  {
    SpaceBeforeValue(s);
  }

  lemma SpaceBeforeMember(s: seq<Item>)
    ensures ParseMembers([Ch(' ')] + s) == ParseMembers(s)
  {
    SpaceIsSkipped(s);
  }

  lemma ArrayStep(s: seq<Item>)
    requires s != [] && !IsBlank(s[0])
    ensures ParseValue([Ch('[')] + s) == AsArray(ParseArray(s))
  {
    assert ([Ch('[')] + s)[1..] == s;
  }

  lemma ObjectStep(s: seq<Item>)
    requires s != [] && !IsBlank(s[0])
    ensures ParseValue([Ch('{')] + s) == AsObject(ParseObject(s))
  {
    assert ([Ch('{')] + s)[1..] == s;
  }

  lemma ItemStep(s: seq<Item>, v: Value, c: char, rest: seq<Item>)
    requires ParseValue(s) == Some(Parsed(v, [Ch(c)] + rest)) && (c == ',' || c == ']')
    ensures ParseItems(s) == if c == ']' then Some(Parsed([v], rest)) else Cons(v, ParseItems(rest))
  {
    assert ([Ch(c)] + rest)[1..] == rest;
  }

  function AfterName(name: string, r: Option<Parsed<Value>>): Option<Parsed<seq<Member>>> {
    match r
    case None => None
    case Some(p) =>
      var m, u := Member(name, p.value), SkipSpace(p.rest);
      if At(u, '}') then Some(Parsed([m], u[1..]))
      else if At(u, ',') then Cons(m, ParseMembers(u[1..]))
      else None
  }

  lemma NameStep(name: string, s: seq<Item>)
    ensures ParseMembers(Head(name) + s) == AfterName(name, ParseValue(s))
  {
    var t := Head(name) + s;
    assert t[1..] == [Ch(':')] + ([Ch(' ')] + s) && t[1..][1..] == [Ch(' ')] + s;
    SpaceBeforeValue(s);
  }

  lemma MemberStep(name: string, s: seq<Item>, v: Value, c: char, rest: seq<Item>)
    requires ParseValue(s) == Some(Parsed(v, [Ch(c)] + rest)) && (c == ',' || c == '}')
    ensures ParseMembers(Head(name) + s)
         == if c == '}' then Some(Parsed([Member(name, v)], rest)) else Cons(Member(name, v), ParseMembers(rest))
  {
    NameStep(name, s);
    assert ([Ch(c)] + rest)[1..] == rest;
  }

  /** However the text goes on after it, `s` reads as `v`. */
  ghost predicate Reads(s: seq<Item>, v: Value) {
    Starts(s) && forall rest :: Ends(rest) ==> ParseValue(s + rest) == Some(Parsed(v, rest))
  }

  lemma LastItem(s: seq<Item>, x: Value, rest: seq<Item>)
    requires Reads(s, x)
    ensures ParseItems(s + [Ch(']')] + rest) == Some(Parsed([x], rest))
  {
    assert s + [Ch(']')] + rest == s + ([Ch(']')] + rest);
    ItemStep(s + ([Ch(']')] + rest), x, ']', rest);
  }

  function Comma(more: seq<Item>): seq<Item> { [Ch(',')] + ([Ch(' ')] + more) }

  lemma CommaMoves(s: seq<Item>, more: seq<Item>, rest: seq<Item>)
    ensures s + ([Ch(','), Ch(' ')] + more) + rest == s + Comma(more + rest)
  {
  }

  lemma NextItem(s: seq<Item>, x: Value, more: seq<Item>, rest: seq<Item>)
    requires Reads(s, x)
    ensures ParseItems(s + ([Ch(','), Ch(' ')] + more) + rest) == Cons(x, ParseItems(more + rest))
  {
    CommaMoves(s, more, rest);
    ItemStep(s + Comma(more + rest), x, ',', [Ch(' ')] + (more + rest));
    SpaceBeforeItem(more + rest);
  }

  lemma {:induction false} ItemsReadBack(parts: seq<seq<Item>>, xs: seq<Value>, rest: seq<Item>)
    requires |parts| == |xs| > 0 && forall i :: 0 <= i < |xs| ==> Reads(parts[i], xs[i])
    ensures ParseItems(Listed(parts, ']') + rest) == Some(Parsed(xs, rest))
  {
    if |parts| == 1 {
      LastItem(parts[0], xs[0], rest);
      assert xs == [xs[0]];
    } else {
      ItemsReadBack(parts[1..], xs[1..], rest);
      NextItem(parts[0], xs[0], Listed(parts[1..], ']'), rest);
      assert xs == [xs[0]] + xs[1..];
    }
  }

  ghost predicate ReadsMember(s: seq<Item>, m: Member) {
    |s| >= 3 && s[..3] == Head(m.name) && Reads(s[3..], m.value)
  }

  lemma LastMember(s: seq<Item>, m: Member, rest: seq<Item>)
    requires ReadsMember(s, m)
    ensures ParseMembers(s + [Ch('}')] + rest) == Some(Parsed([m], rest))
  {
    assert s + [Ch('}')] + rest == Head(m.name) + (s[3..] + ([Ch('}')] + rest));
    MemberStep(m.name, s[3..] + ([Ch('}')] + rest), m.value, '}', rest);
  }

  lemma NextMember(s: seq<Item>, m: Member, more: seq<Item>, rest: seq<Item>)
    requires ReadsMember(s, m)
    ensures ParseMembers(s + ([Ch(','), Ch(' ')] + more) + rest) == Cons(m, ParseMembers(more + rest))
  {
    CommaMoves(s, more, rest);
    assert s + Comma(more + rest) == Head(m.name) + (s[3..] + Comma(more + rest));
    MemberStep(m.name, s[3..] + Comma(more + rest), m.value, ',', [Ch(' ')] + (more + rest));
    SpaceBeforeMember(more + rest);
  }

  lemma {:induction false} MembersReadBack(parts: seq<seq<Item>>, ms: seq<Member>, rest: seq<Item>)
    requires |parts| == |ms| > 0 && forall i :: 0 <= i < |ms| ==> ReadsMember(parts[i], ms[i])
    ensures ParseMembers(Listed(parts, '}') + rest) == Some(Parsed(ms, rest))
  {
    if |parts| == 1 {
      LastMember(parts[0], ms[0], rest);
      assert ms == [ms[0]];
    } else {
      MembersReadBack(parts[1..], ms[1..], rest);
      NextMember(parts[0], ms[0], Listed(parts[1..], '}'), rest);
      assert ms == [ms[0]] + ms[1..];
    }
  }

  lemma EnclosedStep(open: char, parts: seq<seq<Item>>, close: char, rest: seq<Item>)
    ensures Enclosed(open, parts, close) + rest
         == [Ch(open)] + ((if parts == [] then [Ch(close)] else Listed(parts, close)) + rest)
  {
  }

  lemma ArrayReads(parts: seq<seq<Item>>, xs: seq<Value>)
    requires |parts| == |xs| && forall i :: 0 <= i < |xs| ==> Reads(parts[i], xs[i])
    ensures Reads(Enclosed('[', parts, ']'), Arr(xs))
  {
    forall rest ensures ParseValue(Enclosed('[', parts, ']') + rest) == Some(Parsed(Arr(xs), rest)) {
      var s := (if parts == [] then [Ch(']')] else Listed(parts, ']')) + rest;
      EnclosedStep('[', parts, ']', rest);
      if parts == [] {
        assert s[1..] == rest;
      } else {
        assert Reads(parts[0], xs[0]) && s[0] == parts[0][0];
        ItemsReadBack(parts, xs, rest);
      }
      ArrayStep(s);
    }
  }

  lemma ObjectReads(parts: seq<seq<Item>>, ms: seq<Member>)
    requires |parts| == |ms| && forall i :: 0 <= i < |ms| ==> ReadsMember(parts[i], ms[i])
    ensures Reads(Enclosed('{', parts, '}'), Obj(ms))
  {
    forall rest ensures ParseValue(Enclosed('{', parts, '}') + rest) == Some(Parsed(Obj(ms), rest)) {
      var s := (if parts == [] then [Ch('}')] else Listed(parts, '}')) + rest;
      EnclosedStep('{', parts, '}', rest);
      if parts == [] {
        assert s[1..] == rest;
      } else {
        assert ReadsMember(parts[0], ms[0]) && s[0] == parts[0][..3][0];
        MembersReadBack(parts, ms, rest);
      }
      ObjectStep(s);
    }
  }

  lemma StringReads(text: string)
    ensures Reads([Lit(text)], Str(text))
  {
    forall rest ensures ParseValue([Lit(text)] + rest) == Some(Parsed(Str(text), rest)) {
      assert ([Lit(text)] + rest)[1..] == rest;
    }
  }

  lemma AtomReads(text: string)
    requires IsAtom(text)
    ensures Reads(Chars(text), Atom(text))
  {
    forall rest | Ends(rest) ensures ParseValue(Chars(text) + rest) == Some(Parsed(Atom(text), rest)) {
      AtomReadsBack(text, rest);
      assert (Chars(text) + rest)[|text|..] == rest;
    }
  }

  lemma {:induction false} ShownReads(v: Value)
    requires Valid(v)
    ensures Reads(Shown(v), v)
  {
    match v
    case Str(text) => StringReads(text);
    case Atom(text) => AtomReads(text);
    case Arr(items) =>
      var parts := seq(|items|, i requires 0 <= i < |items| => Shown(items[i]));
      forall i | 0 <= i < |items| ensures Reads(parts[i], items[i]) { ShownReads(items[i]); }
      ArrayReads(parts, items);
    case Obj(members) =>
      var parts := seq(|members|, i requires 0 <= i < |members| => Head(members[i].name) + Shown(members[i].value));
      forall i | 0 <= i < |members| ensures ReadsMember(parts[i], members[i]) {
        ShownReads(members[i].value);
        assert parts[i][3..] == Shown(members[i].value);
      }
      ObjectReads(parts, members);
  }

  /** Every JSON value reads back from what is printed for it. */
  lemma LoadDump(v: Value)
    requires Valid(v)
    ensures Load(Dump(v)) == Some(v)
  {
    ExplodeGather(Shown(v));
    ShownReads(v);
    assert Shown(v) + [] == Shown(v);
  }

  lemma {:induction false} SkipsBlank(s: seq<Item>)
    ensures SkipSpace(s) == [] <==> forall i :: 0 <= i < |s| ==> s[i] in {Ch(' '), Ch('\t'), Ch('\n'), Ch('\r')}
  {
    if s != [] && IsBlank(s[0]) {
      SkipsBlank(s[1..]);
      assert forall i :: 0 < i < |s| ==> s[i] == s[1..][i - 1];
    }
  }

  /** After a value only whitespace may stand. */
  lemma LoadTakesOne(v: Value, rest: seq<Item>)
    requires Valid(v) && Ends(rest)
    ensures Load(Gather(Shown(v) + rest))
         == if forall i :: 0 <= i < |rest| ==> rest[i] in {Ch(' '), Ch('\t'), Ch('\n'), Ch('\r')} then Some(v) else None
  {
    ExplodeGather(Shown(v) + rest);
    ShownReads(v);
    SkipsBlank(rest);
  }

  // ---- what the printed text looks like ----

  lemma {:induction false} ListedIsPrintable(parts: seq<seq<Item>>, close: char)
    requires parts != [] && (forall i :: 0 <= i < |parts| ==> Printable(parts[i])) && (close == ']' || close == '}')
    ensures Printable(Listed(parts, close))
  {
    if |parts| > 1 { ListedIsPrintable(parts[1..], close); }
  }

  lemma {:induction false} ShownIsPrintable(v: Value)
    requires Valid(v)
    ensures Printable(Shown(v))
  {
    match v
    case Str(_) =>
    case Atom(text) =>
    case Arr(items) =>
      var parts := seq(|items|, i requires 0 <= i < |items| => Shown(items[i]));
      forall i | 0 <= i < |items| { ShownIsPrintable(items[i]); }
      if parts != [] { ListedIsPrintable(parts, ']'); }
    case Obj(members) =>
      var parts := seq(|members|, i requires 0 <= i < |members| => Head(members[i].name) + Shown(members[i].value));
      forall i | 0 <= i < |members| { ShownIsPrintable(members[i].value); }
      if parts != [] { ListedIsPrintable(parts, '}'); }
  }

  /** No string in it, names included, holds U+0085, U+2028 or U+2029. */
  predicate QuietValue(v: Value) {
    match v
    case Str(text) => Quiet(text)
    case Atom(_) => true
    case Arr(items) => forall i :: 0 <= i < |items| ==> QuietValue(items[i])
    case Obj(members) => forall i :: 0 <= i < |members| ==> Quiet(members[i].name) && QuietValue(members[i].value)
  }

  lemma QuietConcat(a: seq<Item>, b: seq<Item>)
    ensures QuietItems(a + b) <==> QuietItems(a) && QuietItems(b)
  {
    if QuietItems(a + b) {
      assert forall i :: 0 <= i < |a| ==> a[i] == (a + b)[i];
      assert forall i :: 0 <= i < |b| ==> b[i] == (a + b)[|a| + i];
    }
  }

  lemma {:induction false} ListedIsQuiet(parts: seq<seq<Item>>, close: char)
    requires parts != []
    ensures QuietItems(Listed(parts, close)) <==> forall i :: 0 <= i < |parts| ==> QuietItems(parts[i])
  {
    if |parts| == 1 {
      QuietConcat(parts[0], [Ch(close)]);
    } else {
      ListedIsQuiet(parts[1..], close);
      QuietConcat([Ch(','), Ch(' ')], Listed(parts[1..], close));
      QuietConcat(parts[0], [Ch(','), Ch(' ')] + Listed(parts[1..], close));
      assert forall i :: 0 < i < |parts| ==> parts[i] == parts[1..][i - 1];
    }
  }

  lemma EnclosedIsQuiet(open: char, parts: seq<seq<Item>>, close: char)
    ensures QuietItems(Enclosed(open, parts, close)) <==> forall i :: 0 <= i < |parts| ==> QuietItems(parts[i])
  {
    if parts != [] {
      ListedIsQuiet(parts, close);
      QuietConcat([Ch(open)], Listed(parts, close));
    }
  }

  lemma HeadIsQuiet(name: string, s: seq<Item>)
    ensures QuietItems(Head(name) + s) <==> Quiet(name) && QuietItems(s)
  {
    assert Head(name)[0] == Lit(name);
    QuietConcat(Head(name), s);
  }

  lemma {:induction false} ShownIsQuiet(v: Value)
    ensures QuietItems(Shown(v)) <==> QuietValue(v)
  {
    match v
    case Str(text) => assert Shown(v)[0] == Lit(text);
    case Atom(text) =>
    case Arr(items) =>
      var parts := seq(|items|, i requires 0 <= i < |items| => Shown(items[i]));
      forall i | 0 <= i < |items| ensures QuietItems(parts[i]) <==> QuietValue(items[i]) { ShownIsQuiet(items[i]); }
      EnclosedIsQuiet('[', parts, ']');
    case Obj(members) =>
      var parts := seq(|members|, i requires 0 <= i < |members| => Head(members[i].name) + Shown(members[i].value));
      forall i | 0 <= i < |members|
        ensures QuietItems(parts[i]) <==> Quiet(members[i].name) && QuietValue(members[i].value)
      {
        ShownIsQuiet(members[i].value);
        HeadIsQuiet(members[i].name, Shown(members[i].value));
      }
      EnclosedIsQuiet('{', parts, '}');
  }

  /** A printed object is one record of a file, with raw breaks exactly where its strings have them. */
  lemma DumpIsRecord(v: Value)
    requires Valid(v)
    ensures v.Obj? ==> IsObject(Dump(v))
    ensures QuietRecord(Dump(v)) <==> QuietValue(v)
  {
    ShownIsPrintable(v);
    GatherIsTokens(Shown(v));
    ShownIsQuiet(v);
    GatherIsQuiet(Shown(v));
  }
}
