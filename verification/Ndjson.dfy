/**
  One JSON record per line, read back with `splitlines`. `json.dumps(ensure_ascii=False)` escapes
  quotes, backslashes and the controls below U+0020 and leaves everything else raw.
 */
module Ndjson {
  import opened Prelude
  import opened PyText

  // `splitlines` also breaks at U+0085, U+2028 and U+2029, which JSON leaves raw.

  /**
    A record is seen as the tokens of its text: string literals, and the punctuation, numbers and words
    between them.
   */
  datatype Token = Quoted(text: string) | Bare(text: string)

  type Record = seq<Token>

  // ---- string literals, section 7 of RFC 8259 ----

  function Hex(d: nat): char
    requires d < 16
  {
    if d < 10 then '0' + d as char else 'a' + (d - 10) as char
  }

  function UnHex(c: char): Option<nat> {
    if '0' <= c <= '9' then Some(c as int - '0' as int)
    else if 'a' <= c <= 'f' then Some(c as int - 'a' as int + 10)
    else if 'A' <= c <= 'F' then Some(c as int - 'A' as int + 10)
    else None
  }

  function EscapeChar(c: char): string {
    if c == '\"' then "\\\""
    else if c == '\\' then "\\\\"
    else if c == '\n' then "\\n"
    else if c == '\r' then "\\r"
    else if c == '\t' then "\\t"
    else if c == '\U{8}' then "\\b"
    else if c == '\U{C}' then "\\f"
    else if c < ' ' then ['\\', 'u', '0', '0', Hex(c as int / 16), Hex(c as int % 16)]
    else [c]
  }

  /** Hexadecimal digits of either case are read. */
  lemma UnHexIs(k: nat)
    requires k < 16
    ensures UnHex("0123456789abcdef"[k]) == Some(k) && UnHex("0123456789ABCDEF"[k]) == Some(k)
    ensures Hex(k) == "0123456789abcdef"[k]
  {
  }

  function Escape(s: string): string {
    if s == "" then "" else EscapeChar(s[0]) + Escape(s[1..])
  }

  datatype Scanned<T> = Scanned(value: T, rest: string)

  /** The letter after a backslash. */
  function Simple(c: char): Option<char> {
    if c == '\"' || c == '\\' || c == '/' then Some(c)
    else if c == 'n' then Some('\n')
    else if c == 'r' then Some('\r')
    else if c == 't' then Some('\t')
    else if c == 'b' then Some('\U{8}')
    else if c == 'f' then Some('\U{C}')
    else None
  }

  const ESCAPED := "\"\\\n\r\t\U{8}\U{C}"
  const SHORT := "\"\\nrtbf"

  /** The seven characters with a letter of their own, as they are written and as they are read. */
  lemma LetterEscapes(i: nat)
    requires i < 7
    ensures EscapeChar(ESCAPED[i]) == ['\\', SHORT[i]] && Simple(SHORT[i]) == Some(ESCAPED[i])
  {
  }

  /** Four hexadecimal digits; surrogate halves have no character of their own. */
  function FourHex(s: string): Option<char>
    requires |s| == 4
  {
    match (UnHex(s[0]), UnHex(s[1]), UnHex(s[2]), UnHex(s[3]))
    case (Some(a), Some(b), Some(c), Some(d)) =>
      var code := 4096 * a + 256 * b + 16 * c + d;
      if code < 0xD800 || 0xDFFF < code < 0x10000 then Some(code as char) else None
    case _ => None
  }

  /** One character of a string literal. */
  function ScanChar(s: string): (r: Option<Scanned<char>>)
    ensures r.Some? ==> |r.value.rest| < |s|
  {
    if s == "" || s[0] == '\"' || s[0] < ' ' then None
    else if s[0] != '\\' then Some(Scanned(s[0], s[1..]))
    else if |s| < 2 then None
    else if s[1] == 'u' then
      if |s| < 6 then None
      else
        match FourHex(s[2..6])
        case Some(c) => Some(Scanned(c, s[6..]))
        case None => None
    else
      match Simple(s[1])
      case Some(c) => Some(Scanned(c, s[2..]))
      case None => None
  }

  /** The rest of a string literal, after its opening quote. */
  function ScanString(s: string): (r: Option<Scanned<string>>)
    ensures r.Some? ==> |r.value.rest| < |s|
  {
    if s != "" && s[0] == '\"' then Some(Scanned("", s[1..]))
    else
      match ScanChar(s)
      case None => None
      case Some(Scanned(c, rest)) =>
        match ScanString(rest)
        case None => None
        case Some(Scanned(text, after)) => Some(Scanned([c] + text, after))
  }

  // ---- records ----

  function Print(rec: Record): string {
    if rec == [] then "" else PrintToken(rec[0]) + Print(rec[1..])
  }

  function PrintToken(t: Token): string {
    match t
    case Quoted(text) => "\"" + Escape(text) + "\""
    case Bare(text) => text
  }

  function NextQuote(s: string): (k: nat)
    ensures k <= |s| && (k < |s| ==> s[k] == '\"') && forall i :: 0 <= i < k ==> s[i] != '\"'
  {
    if s == "" || s[0] == '\"' then 0 else 1 + NextQuote(s[1..])
  }

  /** `None` for a literal that is not closed, or that holds a control or a bad escape. */
  function Lex(s: string): Option<Record>
    decreases |s|
  {
    if s == "" then Some([])
    else if s[0] == '\"' then
      match ScanString(s[1..])
      case None => None
      case Some(Scanned(text, rest)) => Prepend(Quoted(text), Lex(rest))
    else
      var k := NextQuote(s);
      Prepend(Bare(s[..k]), Lex(s[k..]))
  }

  function Prepend(t: Token, r: Option<Record>): Option<Record> {
    match r
    case None => None
    case Some(rec) => Some([t] + rec)
  }

  /** What lies between string literals is printable ASCII without quotes. */
  predicate BareText(s: string) {
    s != "" && forall i :: 0 <= i < |s| ==> ' ' <= s[i] <= '~' && s[i] != '\"'
  }

  /** The literals of a JSON text are separated by bare text. */
  predicate Tokens(rec: Record) {
    rec == [] ||
    (&& (rec[0].Bare? ==> BareText(rec[0].text) && (|rec| > 1 ==> rec[1].Quoted?))
     && Tokens(rec[1..]))
  }

  /** The text of a JSON object. */
  predicate IsObject(rec: Record) {
    rec != [] && Tokens(rec) && rec[0].Bare? && rec[0].text[0] == '{'
  }

  // ---- the file ----

  function WriteLines(recs: seq<Record>): string {
    if recs == [] then "" else Print(recs[0]) + "\n" + WriteLines(recs[1..])
  }

  function ReadLines(text: string): Option<seq<Record>> { ParseAll(SplitLines(text)) }

  /** Every line that is not blank must parse. */
  function ParseAll(lines: seq<string>): Option<seq<Record>> {
    if lines == [] then Some([])
    else if Strip(lines[0]) == "" then ParseAll(lines[1..])
    else
      match (Lex(lines[0]), ParseAll(lines[1..]))
      case (Some(rec), Some(rest)) => Some([rec] + rest)
      case _ => None
  }

  lemma BlankFirst(blank: string, after: seq<string>)
    requires AllSpace(blank)
    ensures ParseAll([blank] + after) == ParseAll(after)
  {
    StripIs(blank, "", "");
    assert blank + "" + "" == blank;
  }

  /** A line of whitespace more or less makes no difference. */
  lemma {:induction false} BlankLineIsSkipped(before: seq<string>, blank: string, after: seq<string>)
    requires AllSpace(blank)
    ensures ParseAll(before + ([blank] + after)) == ParseAll(before + after)
  {
    if before == [] {
      assert [] + ([blank] + after) == [blank] + after && [] + after == after;
      BlankFirst(blank, after);
    } else {
      BlankLineIsSkipped(before[1..], blank, after);
      assert (before + ([blank] + after))[1..] == before[1..] + ([blank] + after);
      assert (before + after)[1..] == before[1..] + after;
    }
  }

  // ---- literals read back ----

  lemma HexReadsBack(d: nat)
    requires d < 16
    ensures UnHex(Hex(d)) == Some(d)
  {
  }

  lemma ControlReadsBack(c: char, rest: string)
    requires c < ' '
    ensures ScanChar(['\\', 'u', '0', '0', Hex(c as int / 16), Hex(c as int % 16)] + rest) == Some(Scanned(c, rest))
  {
    var e := ['\\', 'u', '0', '0', Hex(c as int / 16), Hex(c as int % 16)];
    assert (e + rest)[2..6] == e[2..6] && (e + rest)[6..] == rest;
    HexReadsBack(c as int / 16);
    HexReadsBack(c as int % 16);
  }

  lemma PairReadsBack(a: char, c: char, rest: string)
    requires Simple(a) == Some(c) && a != 'u'
    ensures ScanChar(['\\', a] + rest) == Some(Scanned(c, rest))
  {
    assert (['\\', a] + rest)[2..] == rest;
  }

  lemma CharReadsBack(c: char, rest: string)
    ensures EscapeChar(c) != "" && EscapeChar(c)[0] != '\"'
    ensures ScanChar(EscapeChar(c) + rest) == Some(Scanned(c, rest))
  {
    if c == '\"' { PairReadsBack('\"', c, rest); }
    else if c == '\\' { PairReadsBack('\\', c, rest); }
    else if c == '\n' { PairReadsBack('n', c, rest); }
    else if c == '\r' { PairReadsBack('r', c, rest); }
    else if c == '\t' { PairReadsBack('t', c, rest); }
    else if c == '\U{8}' { PairReadsBack('b', c, rest); }
    else if c == '\U{C}' { PairReadsBack('f', c, rest); }
    else if c < ' ' { ControlReadsBack(c, rest); }
    else { assert ([c] + rest)[1..] == rest; }
  }

  lemma ScanStep(c: char, s: string)
    ensures ScanString(EscapeChar(c) + s) ==
      match ScanString(s)
      case None => None
      case Some(Scanned(text, after)) => Some(Scanned([c] + text, after))
  {
    CharReadsBack(c, s);
    assert (EscapeChar(c) + s)[0] == EscapeChar(c)[0];
  }

  lemma {:induction false} StringReadsBack(s: string, rest: string)
    ensures ScanString(Escape(s) + "\"" + rest) == Some(Scanned(s, rest))
  {
    if s == "" {
      assert (Escape(s) + "\"" + rest)[1..] == rest;
    } else {
      StringReadsBack(s[1..], rest);
      ScanStep(s[0], Escape(s[1..]) + "\"" + rest);
      assert Escape(s) + "\"" + rest == EscapeChar(s[0]) + (Escape(s[1..]) + "\"" + rest);
      assert s == [s[0]] + s[1..];
    }
  }

  /** A literal cut short does not scan. */
  lemma {:induction false} CutStringFails(s: string)
    ensures ScanString(Escape(s)) == None
  {
    if s == "" {
    } else {
      CutStringFails(s[1..]);
      ScanStep(s[0], Escape(s[1..]));
    }
  }

  lemma QuotedLexes(text: string, rest: string)
    ensures Lex(PrintToken(Quoted(text)) + rest) == Prepend(Quoted(text), Lex(rest))
  {
    StringReadsBack(text, rest);
    var s := PrintToken(Quoted(text)) + rest;
    assert s[0] == '\"' && s[1..] == Escape(text) + "\"" + rest;
  }

  lemma {:induction false} NextQuoteIs(s: string, k: nat)
    requires k <= |s| && (k < |s| ==> s[k] == '\"') && forall i :: 0 <= i < k ==> s[i] != '\"'
    ensures NextQuote(s) == k
  {
    if k > 0 { NextQuoteIs(s[1..], k - 1); }
  }

  lemma {:induction false} BareLexes(text: string, rest: string)
    requires BareText(text) && (rest == "" || rest[0] == '\"')
    ensures Lex(text + rest) == Prepend(Bare(text), Lex(rest))
  {
    var s := text + rest;
    NextQuoteIs(s, |text|);
    assert s[0] == text[0] && s[..|text|] == text && s[|text|..] == rest;
  }

  function Append(rec: Record, r: Option<Record>): Option<Record> {
    match r
    case None => None
    case Some(more) => Some(rec + more)
  }

  lemma PrependAppend(rec: Record, r: Option<Record>)
    requires rec != []
    ensures Prepend(rec[0], Append(rec[1..], r)) == Append(rec, r)
  {
    if r.Some? { assert [rec[0]] + (rec[1..] + r.value) == rec + r.value; }
  }

  lemma {:induction false} TokenLexes(t: Token, tail: string)
    requires t.Bare? ==> BareText(t.text) && (tail == "" || tail[0] == '\"')
    ensures Lex(PrintToken(t) + tail) == Prepend(t, Lex(tail))
  {
    match t
    case Quoted(text) => QuotedLexes(text, tail);
    case Bare(text) => BareLexes(text, tail);
  }

  /** What follows the last token does not run into it. */
  predicate Fits(rec: Record, rest: string) {
    rec != [] && rec[|rec| - 1].Bare? ==> rest == "" || rest[0] == '\"'
  }

  lemma PrintStarts(rec: Record, rest: string)
    requires if rec == [] then rest == "" || rest[0] == '\"' else rec[0].Quoted?
    ensures Print(rec) + rest == "" || (Print(rec) + rest)[0] == '\"'
  {
    if rec == [] { assert Print(rec) + rest == rest; }
  }

  lemma Assoc(a: string, b: string, c: string)
    ensures a + b + c == a + (b + c)
  {
  }

  lemma FirstTokenLexes(rec: Record, rest: string, tail: string)
    requires Tokens(rec) && rec != [] && Fits(rec, rest) && tail == Print(rec[1..]) + rest
    ensures Lex(PrintToken(rec[0]) + tail) == Prepend(rec[0], Lex(tail))
  {
    if rec[0].Bare? { PrintStarts(rec[1..], rest); }
    TokenLexes(rec[0], tail);
  }

  lemma AppendNothing(rest: string)
    ensures Lex(Print([]) + rest) == Append([], Lex(rest))
  {
    assert Print([]) + rest == rest;
    if Lex(rest).Some? { assert [] + Lex(rest).value == Lex(rest).value; }
  }

  /** Lexing past a printed prefix. */
  lemma {:induction false} PrefixLexes(rec: Record, rest: string)
    requires Tokens(rec) && Fits(rec, rest)
    ensures Lex(Print(rec) + rest) == Append(rec, Lex(rest))
  {
    if rec == [] {
      AppendNothing(rest);
    } else {
      var tail := Print(rec[1..]) + rest;
      if |rec| > 1 { assert rec[1..][|rec| - 2] == rec[|rec| - 1]; }
      PrefixLexes(rec[1..], rest);
      Assoc(PrintToken(rec[0]), Print(rec[1..]), rest);
      FirstTokenLexes(rec, rest, tail);
      PrependAppend(rec, Lex(rest));
    }
  }

  lemma RecordLexes(rec: Record)
    requires Tokens(rec)
    ensures Lex(Print(rec)) == Some(rec)
  {
    PrefixLexes(rec, "");
    assert Print(rec) + "" == Print(rec) && rec + [] == rec;
  }

  // ---- which characters break a line ----

  /** The line breaks that JSON leaves raw. */
  predicate IsRawBreak(c: char) { c == '\U{85}' || c == '\U{2028}' || c == '\U{2029}' }

  predicate Quiet(s: string) { forall i :: 0 <= i < |s| ==> !IsRawBreak(s[i]) }

  predicate QuietRecord(rec: Record) {
    forall i :: 0 <= i < |rec| && rec[i].Quoted? ==> Quiet(rec[i].text)
  }

  lemma EscapeCharBreaks(c: char)
    ensures if IsRawBreak(c) then EscapeChar(c) == [c] && IsBreak(c) && c != '\r' else NoBreak(EscapeChar(c))
  {
  }

  lemma {:induction false} EscapeIsOneLine(s: string)
    requires Quiet(s)
    ensures NoBreak(Escape(s))
  {
    if s != "" {
      EscapeCharBreaks(s[0]);
      EscapeIsOneLine(s[1..]);
    }
  }

  lemma TokenIsOneLine(t: Token)
    requires (t.Bare? ==> BareText(t.text)) && (t.Quoted? ==> Quiet(t.text))
    ensures NoBreak(PrintToken(t))
  {
    if t.Quoted? { EscapeIsOneLine(t.text); }
  }

  lemma {:induction false} PrintIsOneLine(rec: Record)
    requires Tokens(rec) && QuietRecord(rec)
    ensures NoBreak(Print(rec))
  {
    if rec != [] {
      TokenIsOneLine(rec[0]);
      PrintIsOneLine(rec[1..]);
    }
  }

  // ---- splitlines ----

  lemma FirstLine(head: string, c: char, rest: string)
    requires NoBreak(head) && IsBreak(c) && c != '\r'
    ensures SplitLines(head + [c] + rest) == [head] + SplitLines(rest)
  {
    var s := head + [c] + rest;
    assert s[|head|] == c;
    FirstBreakIs(s, |head|);
    assert s[..|head|] == head && s[|head| + 1..] == rest;
  }

  lemma {:induction false} LStripStops(s: string, i: nat)
    requires i < |s| && !IsSpace(s[i])
    ensures LStrip(s, IsSpace) != "" && !IsSpace(LStrip(s, IsSpace)[0])
  {
    if IsSpace(s[0]) {
      LStripStops(s[1..], i - 1);
    }
  }

  lemma {:induction false} RStripStops(s: string)
    requires s != "" && !IsSpace(s[0])
    ensures RStrip(s, IsSpace) != ""
  {
    if IsSpace(s[|s| - 1]) {
      RStripStops(s[..|s| - 1]);
    }
  }

  lemma ObjectIsNotBlank(line: string)
    requires line != "" && line[0] == '{'
    ensures Strip(line) != ""
  {
    LStripStops(line, 0);
    RStripStops(LStrip(line, IsSpace));
  }

  lemma ObjectStarts(rec: Record)
    requires IsObject(rec)
    ensures Print(rec) != "" && Print(rec)[0] == '{'
  {
  }

  /** A record with no raw break is one line, and reads back. */
  lemma QuietRecordReadsBack(rec: Record, rest: string)
    requires IsObject(rec) && QuietRecord(rec)
    ensures ReadLines(Print(rec) + "\n" + rest) ==
      match ReadLines(rest)
      case None => None
      case Some(more) => Some([rec] + more)
  {
    PrintIsOneLine(rec);
    FirstLine(Print(rec), '\n', rest);
    ObjectStarts(rec);
    ObjectIsNotBlank(Print(rec));
    RecordLexes(rec);
    assert ([Print(rec)] + SplitLines(rest))[1..] == SplitLines(rest);
  }

  // ---- a raw break cuts a literal ----

  lemma {:induction false} CutInString(s: string) returns (head: string, c: char, tail: string)
    requires !Quiet(s)
    ensures Escape(s) == Escape(head) + [c] + tail
    ensures Quiet(head) && IsRawBreak(c)
  {
    if IsRawBreak(s[0]) {
      head, c, tail := "", s[0], Escape(s[1..]);
    } else {
      var h, d, t := CutInString(s[1..]);
      head, c, tail := [s[0]] + h, d, t;
      assert head[1..] == h;
      assert Escape(s) == EscapeChar(s[0]) + (Escape(h) + [d] + t);
    }
  }

  lemma PrintCons(t: Token, rest: Record)
    ensures Print([t] + rest) == PrintToken(t) + Print(rest)
  {
    assert ([t] + rest)[1..] == rest;
  }

  lemma FirstOfConcat(a: Record, b: Record)
    requires a != []
    ensures a + b == [a[0]] + (a[1..] + b)
  {
  }

  lemma {:induction false} PrintConcat(a: Record, b: Record)
    ensures Print(a + b) == Print(a) + Print(b)
  {
    if a == [] {
      assert a + b == b && "" + Print(b) == Print(b);
    } else {
      PrintConcat(a[1..], b);
      FirstOfConcat(a, b);
      PrintCons(a[0], a[1..] + b);
      Assoc(PrintToken(a[0]), Print(a[1..]), Print(b));
    }
  }

  lemma {:induction false} PrintSplit(rec: Record, j: nat)
    requires j < |rec|
    ensures Print(rec) == Print(rec[..j]) + (PrintToken(rec[j]) + Print(rec[j + 1..]))
  {
    PrintConcat(rec[..j], rec[j..]);
    assert rec[..j] + rec[j..] == rec && rec[j..][1..] == rec[j + 1..];
  }

  lemma {:induction false} TokensPrefix(rec: Record, j: nat)
    requires Tokens(rec) && j <= |rec|
    ensures Tokens(rec[..j])
  {
    if j > 0 {
      TokensPrefix(rec[1..], j - 1);
      assert rec[1..][..j - 1] == rec[..j][1..];
    }
  }

  /** The first literal with a raw break. */
  lemma {:induction false} FirstLoud(rec: Record) returns (j: nat)
    requires !QuietRecord(rec)
    ensures j < |rec| && rec[j].Quoted? && !Quiet(rec[j].text) && QuietRecord(rec[..j])
  {
    j := 0;
    while !(rec[j].Quoted? && !Quiet(rec[j].text))
      invariant j < |rec|
      invariant forall i :: 0 <= i <= j && i < j ==> (rec[i].Quoted? ==> Quiet(rec[i].text))
      decreases |rec| - j
    {
      if j + 1 == |rec| { assert QuietRecord(rec); }
      j := j + 1;
    }
  }

  lemma {:induction false} OpenLiteralFails(text: string)
    ensures Lex("\"" + Escape(text)) == None
  {
    CutStringFails(text);
    assert ("\"" + Escape(text))[1..] == Escape(text);
  }

  lemma CutLiteral(text: string) returns (head: string, c: char, tail: string)
    requires !Quiet(text)
    ensures PrintToken(Quoted(text)) == "\"" + Escape(head) + ([c] + tail)
    ensures Quiet(head) && IsRawBreak(c)
  {
    var t;
    head, c, t := CutInString(text);
    tail := t + "\"";
    assert PrintToken(Quoted(text)) == "\"" + (Escape(head) + [c] + t) + "\"";
  }

  lemma CutLineFails(before: Record, head: string)
    requires IsObject(before) && QuietRecord(before) && Quiet(head)
    ensures var line := Print(before) + ("\"" + Escape(head));
            NoBreak(line) && Lex(line) == None && Strip(line) != ""
  {
    var line := Print(before) + ("\"" + Escape(head));
    PrintIsOneLine(before);
    EscapeIsOneLine(head);
    OpenLiteralFails(head);
    PrefixLexes(before, "\"" + Escape(head));
    ObjectStarts(before);
    assert line[0] == Print(before)[0];
    ObjectIsNotBlank(line);
  }

  lemma ObjectPrefix(rec: Record, j: nat)
    requires IsObject(rec) && 0 < j <= |rec|
    ensures IsObject(rec[..j])
  {
    TokensPrefix(rec, j);
    assert rec[..j][0] == rec[0];
  }

  /** The first line of a record with a raw break ends inside a literal. */
  lemma LoudRecordIsCut(rec: Record) returns (line: string, c: char, tail: string)
    requires IsObject(rec) && !QuietRecord(rec)
    ensures Print(rec) == line + ([c] + tail) && IsRawBreak(c)
    ensures NoBreak(line) && Lex(line) == None && Strip(line) != ""
  {
    var j := FirstLoud(rec);
    PrintSplit(rec, j);
    ObjectPrefix(rec, j);
    var head, d, t := CutLiteral(rec[j].text);
    CutLineFails(rec[..j], head);
    c, line, tail := d, Print(rec[..j]) + ("\"" + Escape(head)), t + Print(rec[j + 1..]);
    Regroup(Print(rec[..j]), "\"" + Escape(head), [d], t, Print(rec[j + 1..]));
  }

  lemma Regroup(a: string, b: string, c: string, d: string, e: string)
    ensures a + ((b + (c + d)) + e) == (a + b) + (c + (d + e))
  {
  }

  lemma Regroup2(a: string, b: string, c: string, d: string, e: string)
    ensures (a + (b + c)) + d + e == a + b + (c + (d + e))
  {
  }

  lemma LoudRecordFails(rec: Record, rest: string)
    requires IsObject(rec) && !QuietRecord(rec)
    ensures ReadLines(Print(rec) + "\n" + rest) == None
  {
    var line, c, tail := LoudRecordIsCut(rec);
    var after := tail + ("\n" + rest);
    Regroup2(line, [c], tail, "\n", rest);
    FirstLine(line, c, after);
    assert ([line] + SplitLines(after))[0] == line;
  }

  /** No string in the file holds U+0085, U+2028 or U+2029. */
  predicate QuietFile(recs: seq<Record>) {
    forall i :: 0 <= i < |recs| ==> QuietRecord(recs[i])
  }

  lemma QuietTail(recs: seq<Record>)
    requires recs != []
    ensures QuietFile(recs) <==> QuietRecord(recs[0]) && QuietFile(recs[1..])
  {
    if QuietRecord(recs[0]) && QuietFile(recs[1..]) {
      forall i | 0 <= i < |recs| ensures QuietRecord(recs[i]) {
        if i > 0 { assert recs[i] == recs[1..][i - 1]; }
      }
    }
  }

  /**
    Reading back what was written gives the same records exactly when no string of theirs holds
    U+0085, U+2028 or U+2029; otherwise the file does not parse at all.
   */
  lemma {:induction false} LinesReadBack(recs: seq<Record>)
    requires forall i :: 0 <= i < |recs| ==> IsObject(recs[i])
    ensures ReadLines(WriteLines(recs)) == if QuietFile(recs) then Some(recs) else None
  {
    if recs != [] {
      LinesReadBack(recs[1..]);
      QuietTail(recs);
      if QuietRecord(recs[0]) {
        QuietRecordReadsBack(recs[0], WriteLines(recs[1..]));
        assert recs == [recs[0]] + recs[1..];
      } else {
        LoudRecordFails(recs[0], WriteLines(recs[1..]));
      }
    }
  }
}
