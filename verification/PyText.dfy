/**
  The Python string operations the text formats are built from: `join`, `split`, `strip` and
  `splitlines`.

  Strings are sequences of characters and follow the definitions of Python 3: `strip` removes every
  character Python counts as whitespace, and `splitlines` breaks at every character it counts as a
  line boundary, which are more than the line feed and the carriage return.
 */
module PyText {

  /** `sep.join(parts)` */
  function Join(sep: string, parts: seq<string>): string {
    if parts == [] then "" else parts[0] + JoinRest(sep, parts[1..])
  }

  /** Each part preceded by the separator. */
  function JoinRest(sep: string, parts: seq<string>): string {
    if parts == [] then "" else sep + parts[0] + JoinRest(sep, parts[1..])
  }

  /** `s.split(c)` for a one-character separator. */
  function Split(s: string, c: char): (parts: seq<string>)
    ensures |parts| >= 1
  {
    if s == "" then [""]
    else
      var rest := Split(s[1..], c);
      if s[0] == c then [""] + rest else [[s[0]] + rest[0]] + rest[1..]
  }

  lemma {:induction false} SplitNone(s: string, c: char)
    requires c !in s
    ensures Split(s, c) == [s]
  {
    if s != "" {
      SplitNone(s[1..], c);
      assert s == [s[0]] + s[1..];
    }
  }

  lemma {:induction false} SplitFirst(head: string, c: char, tail: string)
    requires c !in head
    ensures Split(head + [c] + tail, c) == [head] + Split(tail, c)
  {
    if head == "" {
      assert ([] + [c] + tail)[1..] == tail;
    } else {
      SplitFirst(head[1..], c, tail);
      assert (head + [c] + tail)[1..] == head[1..] + [c] + tail;
      assert head == [head[0]] + head[1..];
    }
  }

  lemma JoinCons(sep: string, parts: seq<string>)
    requires |parts| > 1
    ensures Join(sep, parts) == parts[0] + sep + Join(sep, parts[1..])
  {
  }

  lemma JoinOne(sep: string, part: string)
    ensures Join(sep, [part]) == part
  {
    assert part + "" == part;
  }

  /** Splitting undoes joining when no part holds the separator. */
  lemma {:induction false} SplitJoin(c: char, parts: seq<string>)
    requires parts != [] && forall i :: 0 <= i < |parts| ==> c !in parts[i]
    ensures Split(Join([c], parts), c) == parts
  {
    if |parts| == 1 {
      JoinOne([c], parts[0]);
      assert parts == [parts[0]];
      SplitNone(parts[0], c);
    } else {
      SplitJoin(c, parts[1..]);
      SplitFirst(parts[0], c, Join([c], parts[1..]));
      JoinCons([c], parts);
    }
  }

  // ---- strip and splitlines ----

  /** What `str.strip` removes. */
  predicate IsSpace(c: char) {
    c == ' ' || '\t' <= c <= '\r' || '\U{1C}' <= c <= '\U{1F}' || c == '\U{85}' || c == '\U{A0}'
    || c == '\U{1680}' || '\U{2000}' <= c <= '\U{200A}' || c == '\U{2028}' || c == '\U{2029}'
    || c == '\U{202F}' || c == '\U{205F}' || c == '\U{3000}'
  }

  /** What `str.splitlines` breaks at. */
  predicate IsBreak(c: char) {
    '\n' <= c <= '\r' || '\U{1C}' <= c <= '\U{1E}' || c == '\U{85}' || c == '\U{2028}' || c == '\U{2029}'
  }

  function LStrip(s: string, drop: char -> bool): string {
    if s != "" && drop(s[0]) then LStrip(s[1..], drop) else s
  }

  function RStrip(s: string, drop: char -> bool): string {
    if s != "" && drop(s[|s| - 1]) then RStrip(s[..|s| - 1], drop) else s
  }

  function Strip(s: string): string { RStrip(LStrip(s, IsSpace), IsSpace) }

  /** The length of the first line. */
  function FirstBreak(s: string): (k: nat)
    ensures k <= |s| && (k < |s| ==> IsBreak(s[k])) && forall i :: 0 <= i < k ==> !IsBreak(s[i])
  {
    if s == "" || IsBreak(s[0]) then 0 else 1 + FirstBreak(s[1..])
  }

  /** `s.splitlines()`: carriage return and line feed together end one line. */
  function SplitLines(s: string): (lines: seq<string>)
    ensures forall i, j :: 0 <= i < |lines| && 0 <= j < |lines[i]| ==> !IsBreak(lines[i][j])
  {
    if s == "" then []
    else
      var k := FirstBreak(s);
      if k == |s| then [s]
      else [s[..k]] + SplitLines(s[k + (if s[k] == '\r' && k + 1 < |s| && s[k + 1] == '\n' then 2 else 1)..])
  }

  // -- `strip` takes all outer whitespace and nothing else --

  predicate AllSpace(s: string) { forall i :: 0 <= i < |s| ==> IsSpace(s[i]) }

  predicate Trimmed(s: string) { s != "" ==> !IsSpace(s[0]) && !IsSpace(s[|s| - 1]) }

  lemma {:induction false} LStripIs(a: string, s: string)
    requires AllSpace(a) && (s != "" ==> !IsSpace(s[0]))
    ensures LStrip(a + s, IsSpace) == s
  {
    if a == "" {
      assert a + s == s;
    } else {
      LStripIs(a[1..], s);
      assert (a + s)[1..] == a[1..] + s;
    }
  }

  lemma {:induction false} RStripIs(s: string, b: string)
    requires AllSpace(b) && (s != "" ==> !IsSpace(s[|s| - 1]))
    ensures RStrip(s + b, IsSpace) == s
  {
    if b == "" {
      assert s + b == s;
    } else {
      var n := |b| - 1;
      RStripIs(s, b[..n]);
      assert (s + b)[..|s + b| - 1] == s + b[..n];
    }
  }

  lemma {:induction false} SpaceLStrips(s: string)
    requires AllSpace(s)
    ensures LStrip(s, IsSpace) == ""
  {
    if s != "" { SpaceLStrips(s[1..]); }
  }

  /** Whatever stands between outer whitespace is what `strip` gives. */
  lemma StripIs(a: string, s: string, b: string)
    requires AllSpace(a) && Trimmed(s) && AllSpace(b)
    ensures Strip(a + s + b) == s
  {
    if s == "" {
      assert a + s + b == a + b;
      SpaceLStrips(a + b);
    } else {
      assert a + s + b == a + (s + b);
      LStripIs(a, s + b);
      RStripIs(s, b);
    }
  }

  lemma {:induction false} LStripParts(s: string) returns (a: string)
    ensures s == a + LStrip(s, IsSpace) && AllSpace(a)
    ensures LStrip(s, IsSpace) != "" ==> !IsSpace(LStrip(s, IsSpace)[0])
  {
    a := "";
    if s != "" && IsSpace(s[0]) {
      a := LStripParts(s[1..]);
      a := [s[0]] + a;
      assert s == [s[0]] + s[1..];
    } else {
      assert s == a + s;
    }
  }

  lemma {:induction false} RStripParts(s: string) returns (b: string)
    ensures s == RStrip(s, IsSpace) + b && AllSpace(b)
    ensures RStrip(s, IsSpace) != "" ==> !IsSpace(RStrip(s, IsSpace)[|RStrip(s, IsSpace)| - 1])
  {
    b := "";
    if s != "" && IsSpace(s[|s| - 1]) {
      b := RStripParts(s[..|s| - 1]);
      b := b + [s[|s| - 1]];
      assert s == s[..|s| - 1] + [s[|s| - 1]];
    } else {
      assert s == s + b;
    }
  }

  /** Every string is its stripped part between whitespace. */
  lemma StripParts(s: string) returns (a: string, b: string)
    ensures s == a + Strip(s) + b && AllSpace(a) && AllSpace(b) && Trimmed(Strip(s))
  {
    a := LStripParts(s);
    b := RStripParts(LStrip(s, IsSpace));
    var core := Strip(s);
    assert LStrip(s, IsSpace) == core + b;
    if core != "" { assert core[0] == LStrip(s, IsSpace)[0]; }
    assert a + (core + b) == a + core + b;
  }

  // -- `splitlines` cuts at every line boundary and nowhere else --

  /** What ends a line: one character, or a carriage return and a line feed together. */
  predicate LineEnd(e: string) { e == "\r\n" || (|e| == 1 && IsBreak(e[0])) }

  predicate NoBreak(s: string) { forall i :: 0 <= i < |s| ==> !IsBreak(s[i]) }

  /** The lines, each followed by its end. */
  function Glued(lines: seq<string>, ends: seq<string>): string
    requires |lines| == |ends|
  {
    if lines == [] then "" else lines[0] + (ends[0] + Glued(lines[1..], ends[1..]))
  }

  /**
    `lines` are the lines of a text and `ends` what follows each: only the last may end without a
    boundary, if it is not empty, and a carriage return is not parted from a line feed.
   */
  predicate Ended(lines: seq<string>, ends: seq<string>) {
    |lines| == |ends| &&
    (lines == [] ||
     (&& NoBreak(lines[0])
      && (if ends[0] == "" then |lines| == 1 && lines[0] != "" else LineEnd(ends[0]))
      && Ended(lines[1..], ends[1..])
      && (ends[0] == "\r" ==> !(['\n'] <= Glued(lines[1..], ends[1..])))))
  }

  lemma {:induction false} FirstBreakIs(s: string, k: nat)
    requires k <= |s| && (k < |s| ==> IsBreak(s[k])) && forall i :: 0 <= i < k ==> !IsBreak(s[i])
    ensures FirstBreak(s) == k
  {
    if k > 0 { FirstBreakIs(s[1..], k - 1); }
  }

  lemma LineBefore(line: string, end: string, lines: seq<string>, ends: seq<string>)
    requires Ended(lines, ends) && NoBreak(line) && LineEnd(end) && (end == "\r" ==> !(['\n'] <= Glued(lines, ends)))
    ensures Ended([line] + lines, [end] + ends) && Glued([line] + lines, [end] + ends) == line + (end + Glued(lines, ends))
  {
    assert ([line] + lines)[1..] == lines && ([end] + ends)[1..] == ends;
  }

  lemma LastLine(s: string)
    requires s != "" && FirstBreak(s) == |s|
    ensures Ended(SplitLines(s), [""]) && Glued(SplitLines(s), [""]) == s
  {
    assert SplitLines(s) == [s] && [s][1..] == [] && [""][1..] == [];
    assert s + ("" + "") == s;
  }

  lemma NextLine(s: string, k: nat, n: nat, more: seq<string>)
    requires s != "" && k == FirstBreak(s) < |s|
    requires n == if s[k] == '\r' && k + 1 < |s| && s[k + 1] == '\n' then 2 else 1
    requires Ended(SplitLines(s[k + n..]), more) && Glued(SplitLines(s[k + n..]), more) == s[k + n..]
    ensures Ended(SplitLines(s), [s[k..k + n]] + more) && Glued(SplitLines(s), [s[k..k + n]] + more) == s
  {
    LineParts(s, k, n);
    LineBefore(s[..k], s[k..k + n], SplitLines(s[k + n..]), more);
    assert SplitLines(s) == [s[..k]] + SplitLines(s[k + n..]);
  }

  /** Every text is its lines with their ends. */
  lemma {:induction false} SplitLinesParts(s: string) returns (ends: seq<string>)
    ensures Ended(SplitLines(s), ends) && Glued(SplitLines(s), ends) == s
  {
    var k := FirstBreak(s);
    if s == "" {
      ends := [];
    } else if k == |s| {
      ends := [""];
      LastLine(s);
    } else {
      var n := if s[k] == '\r' && k + 1 < |s| && s[k + 1] == '\n' then 2 else 1;
      var more := SplitLinesParts(s[k + n..]);
      ends := [s[k..k + n]] + more;
      NextLine(s, k, n, more);
    }
  }

  lemma LineParts(s: string, k: nat, n: nat)
    requires k + n <= |s| && k < |s| && IsBreak(s[k])
    requires n == if s[k] == '\r' && k + 1 < |s| && s[k + 1] == '\n' then 2 else 1
    ensures s == s[..k] + (s[k..k + n] + s[k + n..]) && LineEnd(s[k..k + n])
    ensures s[k..k + n] == "\r" ==> !(['\n'] <= s[k + n..])
  {
    if n == 2 {
      assert s[k..k + 2] == "\r\n";
    } else {
      assert s[k..k + 1] == [s[k]];
    }
  }

  /** And only these lines give the text with their ends. */
  lemma {:induction false} SplitLinesIs(lines: seq<string>, ends: seq<string>)
    requires Ended(lines, ends)
    ensures SplitLines(Glued(lines, ends)) == lines
  {
    if lines != [] {
      SplitLinesIs(lines[1..], ends[1..]);
      var s, rest := Glued(lines, ends), Glued(lines[1..], ends[1..]);
      if ends[0] == "" {
        assert lines[1..] == [] && s == lines[0];
        FirstBreakIs(s, |s|);
        assert lines == [lines[0]];
      } else {
        FirstLineIs(lines[0], ends[0], rest);
        assert lines == [lines[0]] + lines[1..];
      }
    }
  }

  lemma FirstLineIs(line: string, end: string, rest: string)
    requires NoBreak(line) && LineEnd(end) && (end == "\r" ==> !(['\n'] <= rest))
    ensures SplitLines(line + (end + rest)) == [line] + SplitLines(rest)
  {
    var s, k := line + (end + rest), |line|;
    assert s[k] == end[0];
    FirstBreakIs(s, k);
    assert s[..k] == line && s[k + |end|..] == rest;
    if |end| == 1 && k + 1 < |s| { assert s[k + 1] == rest[0]; }
    if |end| == 2 { assert s[k + 1] == end[1]; }
  }

  /** What `$` matches before: `s` without a final line feed. */
  function UpToEnd(s: string): string { if s != "" && s[|s| - 1] == '\n' then s[..|s| - 1] else s }

  /** `^[a-z][a-z0-9_-]{0,49}$`; the `$` also matches before a final line feed. */
  predicate IsIdentifier(s: string) {
    var core := UpToEnd(s);
    && 1 <= |core| <= 50
    && 'a' <= core[0] <= 'z'
    && forall i :: 0 <= i < |core| ==> 'a' <= core[i] <= 'z' || '0' <= core[i] <= '9' || core[i] == '_' || core[i] == '-'
  }

  const LETTERS := "abcdefghijklmnopqrstuvwxyz"
  const DIGITS := "0123456789"

  /** One letter and up to 49 letters, digits and marks. */
  ghost predicate IsName(s: string, marks: string) {
    s != "" && s[0] in LETTERS && |s| <= 50 && forall c :: c in s ==> c in LETTERS || c in DIGITS || c in marks
  }

  lemma LetterIs(c: char)
    ensures c in LETTERS <==> 'a' <= c <= 'z'
  {
    if 'a' <= c <= 'z' { assert LETTERS[c as int - 'a' as int] == c; }
  }

  lemma DigitIs(c: char)
    ensures c in DIGITS <==> '0' <= c <= '9'
  {
    if '0' <= c <= '9' { assert DIGITS[c as int - '0' as int] == c; }
  }

  lemma LettersAre(c: char)
    ensures c in LETTERS <==> 'a' <= c <= 'z'
    ensures c in DIGITS <==> '0' <= c <= '9'
  {
    LetterIs(c);
    DigitIs(c);
  }

  lemma NameIs(s: string, marks: string)
    ensures IsName(s, marks) <==>
      && 1 <= |s| <= 50 && 'a' <= s[0] <= 'z'
      && forall i :: 0 <= i < |s| ==> 'a' <= s[i] <= 'z' || '0' <= s[i] <= '9' || s[i] in marks
  {
    if s != "" { LettersAre(s[0]); }
    forall i | 0 <= i < |s| { LettersAre(s[i]); }
    if IsName(s, marks) {
      forall i | 0 <= i < |s| ensures s[i] in LETTERS || s[i] in DIGITS || s[i] in marks { assert s[i] in s; }
    }
  }

  /** A name, perhaps with a line feed after it. */
  ghost predicate IsLineOfName(s: string, marks: string) {
    IsName(s, marks) || exists name :: s == name + "\n" && IsName(name, marks)
  }

  lemma LineOfName(s: string, marks: string)
    requires '\n' !in marks
    ensures IsLineOfName(s, marks) <==> IsName(UpToEnd(s), marks)
  {
    if s != "" && s[|s| - 1] == '\n' {
      assert s == s[..|s| - 1] + "\n";
      LettersAre('\n');
      assert '\n' in s;
    }
  }

  /** An identifier is a name with `_` and `-`. */
  lemma IdentifierIs(s: string)
    ensures IsIdentifier(s) <==> IsLineOfName(s, "_-")
  {
    LineOfName(s, "_-");
    var core := UpToEnd(s);
    NameIs(core, "_-");
    forall i | 0 <= i < |core| ensures core[i] in "_-" <==> core[i] == '_' || core[i] == '-' {}
    assert IsIdentifier(s) <==> IsName(core, "_-");
  }
}
