/**
  Wrapping retrieved content in untrusted tags. The escape replaces every closing tag in the content,
  so that a reader who scans for closing tags finds the wrapper's own and nothing else.
 */
module Untrusted {
  import opened PyText

  /** The record kinds that get wrapped, by tag name and attribute. */
  datatype Tag = Tag(name: string, attribute: string) {
    /** Tag names and attributes are plain words. */
    predicate Valid() { Plain(name) && Plain(attribute) }

    function Closing(): string { "</" + name + ">" }

    function Escaped(): string { "&lt;/" + name + "&gt;" }

    function Opening(id: string): string { "<" + name + " untrusted=\"true\" " + attribute + "=\"" + id + "\">" }
  }

  const MEMORY := Tag("retrieved_memory", "id")
  const FACT := Tag("retrieved_fact", "id")
  const PROPERTY := Tag("retrieved_property", "type")

  /** No markup and no line break. */
  predicate Plain(s: string) {
    s != "" && forall i :: 0 <= i < |s| ==> s[i] != '<' && s[i] != '>' && s[i] != '&' && s[i] != '\n' && s[i] != '/'
  }

  // ---- str.replace ----

  predicate At(pattern: string, s: string, i: nat) {
    i + |pattern| <= |s| && s[i..i + |pattern|] == pattern
  }

  ghost predicate Free(pattern: string, s: string) {
    forall i: nat :: !At(pattern, s, i)
  }

  /** Leftmost, non-overlapping replacement. */
  function Replace(s: string, pattern: string, replacement: string): string
    requires pattern != ""
  {
    if |s| < |pattern| then s
    else if s[..|pattern|] == pattern then replacement + Replace(s[|pattern|..], pattern, replacement)
    else [s[0]] + Replace(s[1..], pattern, replacement)
  }

  function Escape(tag: Tag, content: string): string { Replace(content, tag.Closing(), tag.Escaped()) }

  function Wrap(tag: Tag, id: string, content: string): string {
    tag.Opening(id) + "\n" + Escape(tag, content) + "\n" + tag.Closing()
  }

  // ---- what the replacement does: the first occurrence is replaced, and all before it is kept ----

  lemma AtShifted(pattern: string, s: string, i: nat)
    requires s != ""
    ensures At(pattern, s, i + 1) <==> At(pattern, s[1..], i)
  {
    assert i + 1 + |pattern| <= |s| ==> s[i + 1..i + 1 + |pattern|] == s[1..][i..i + |pattern|];
  }

  lemma {:induction false} ReplaceKeepsFree(s: string, pattern: string, replacement: string)
    requires pattern != "" && Free(pattern, s)
    ensures Replace(s, pattern, replacement) == s
  {
    if |s| >= |pattern| {
      assert !At(pattern, s, 0);
      forall i: nat ensures !At(pattern, s[1..], i) {
        AtShifted(pattern, s, i);
      }
      ReplaceKeepsFree(s[1..], pattern, replacement);
      assert s == [s[0]] + s[1..];
    }
  }

  lemma ReplaceStep(s: string, pattern: string, replacement: string)
    requires pattern != "" && |s| >= |pattern|
    ensures Replace(s, pattern, replacement) ==
      if At(pattern, s, 0) then replacement + Replace(s[|pattern|..], pattern, replacement)
      else [s[0]] + Replace(s[1..], pattern, replacement)
  {
  }

  lemma {:induction false} ReplaceFrom(s: string, pattern: string, replacement: string, k: nat, rest: string)
    requires pattern != "" && At(pattern, s, k) && forall i :: 0 <= i < k ==> !At(pattern, s, i)
    requires rest == replacement + Replace(s[k + |pattern|..], pattern, replacement)
    ensures Replace(s, pattern, replacement) == s[..k] + rest
  {
    ReplaceStep(s, pattern, replacement);
    if k == 0 {
      assert s[..0] + rest == rest;
    } else {
      AtShifted(pattern, s, k - 1);
      forall i | 0 <= i < k - 1 ensures !At(pattern, s[1..], i) {
        AtShifted(pattern, s, i);
      }
      FirstKept(s, k, |pattern|, rest);
      ReplaceFrom(s[1..], pattern, replacement, k - 1, rest);
    }
  }

  lemma ReplaceAtFirst(s: string, pattern: string, replacement: string, k: nat)
    requires pattern != "" && At(pattern, s, k) && forall i :: 0 <= i < k ==> !At(pattern, s, i)
    ensures Replace(s, pattern, replacement)
         == s[..k] + (replacement + Replace(s[k + |pattern|..], pattern, replacement))
  {
    ReplaceFrom(s, pattern, replacement, k, replacement + Replace(s[k + |pattern|..], pattern, replacement));
  }

  lemma FirstKept(s: string, k: nat, n: nat, rest: string)
    requires 0 < k && k + n <= |s|
    ensures s[1..][k - 1 + n..] == s[k + n..]
    ensures [s[0]] + (s[1..][..k - 1] + rest) == s[..k] + rest
  {
  }

  // ---- no closing tag survives the escape ----

  lemma HeadInPrefix(w: string, x: string, y: string)
    requires w <= x + y && w != "" && x != ""
    ensures x[0] in w
  {
    assert w[0] == (x + y)[0] == x[0];
  }

  /** Text without the first character of the replacement is in the output only where it was in the input. */
  lemma {:induction false} PrefixSurvives(s: string, pattern: string, replacement: string, w: string)
    requires pattern != "" && replacement != "" && replacement[0] !in w
    requires w <= Replace(s, pattern, replacement)
    ensures w <= s
  {
    if w == "" || |s| < |pattern| {
    } else if s[..|pattern|] == pattern {
      HeadInPrefix(w, replacement, Replace(s[|pattern|..], pattern, replacement));
    } else {
      assert w[0] == s[0] && w[1..] <= Replace(s[1..], pattern, replacement);
      PrefixSurvives(s[1..], pattern, replacement, w[1..]);
    }
  }

  lemma AtInTail(pattern: string, head: string, tail: string, i: nat)
    requires i >= |head|
    ensures At(pattern, head + tail, i) <==> At(pattern, tail, i - |head|)
  {
    assert i + |pattern| <= |head + tail| ==>
             (head + tail)[i..i + |pattern|] == tail[i - |head|..i - |head| + |pattern|];
  }

  lemma AtInHead(pattern: string, head: string, tail: string, i: nat)
    requires i + |pattern| <= |head|
    ensures At(pattern, head + tail, i) <==> At(pattern, head, i)
  {
    assert (head + tail)[i..i + |pattern|] == head[i..i + |pattern|];
  }

  lemma AtCharacter(pattern: string, s: string, i: nat, j: nat)
    requires At(pattern, s, i) && j < |pattern|
    ensures s[i + j] == pattern[j]
  {
    assert s[i..i + |pattern|][j] == s[i + j];
  }

  lemma PrefixFromTail(pattern: string, s: string, rest: string)
    requires pattern != "" && s != "" && pattern <= [s[0]] + rest && pattern[1..] <= s[1..]
    ensures pattern <= s
  {
    assert s == [s[0]] + s[1..] && pattern == [pattern[0]] + pattern[1..];
  }

  /**
    If the pattern's first character is not in the replacement, and the replacement's first is not in the
    pattern, none survives.
   */
  lemma {:induction false} ReplaceFrees(s: string, pattern: string, replacement: string, i: nat)
    requires pattern != "" && replacement != "" && replacement[0] !in pattern && pattern[0] !in replacement
    ensures !At(pattern, Replace(s, pattern, replacement), i)
  {
    if |s| < |pattern| {
    } else if s[..|pattern|] == pattern {
      var rest := Replace(s[|pattern|..], pattern, replacement);
      if i < |replacement| {
        assert (replacement + rest)[i] == replacement[i];
        if At(pattern, replacement + rest, i) { AtCharacter(pattern, replacement + rest, i, 0); }
      } else {
        AtInTail(pattern, replacement, rest, i);
        ReplaceFrees(s[|pattern|..], pattern, replacement, i - |replacement|);
      }
    } else {
      var rest := Replace(s[1..], pattern, replacement);
      if i > 0 {
        AtInTail(pattern, [s[0]], rest, i);
        ReplaceFrees(s[1..], pattern, replacement, i - 1);
      } else if pattern <= [s[0]] + rest {
        assert pattern[1..] <= rest;
        PrefixSurvives(s[1..], pattern, replacement, pattern[1..]);
        PrefixFromTail(pattern, s, rest);
      }
    }
  }

  /** For every content, the escaped body holds no closing tag. */
  lemma EscapedIsFree(tag: Tag, content: string)
    requires tag.Valid()
    ensures Free(tag.Closing(), Escape(tag, content))
  {
    var pattern, replacement := tag.Closing(), tag.Escaped();
    assert pattern[0] == '<' && replacement[0] == '&';
    forall i: nat ensures !At(pattern, Escape(tag, content), i) {
      ReplaceFrees(content, pattern, replacement, i);
    }
  }

  // ---- the text a tool returns, and a reader who scans it for closing tags ----

  function WrapAll(tag: Tag, ids: seq<string>, contents: seq<string>): (parts: seq<string>)
    requires |ids| == |contents|
    ensures |parts| == |ids|
  {
    seq(|ids|, i requires 0 <= i < |ids| => Wrap(tag, ids[i], contents[i]))
  }

  /** The loop of `recall`, `recall_recent`, `get_facts` and `get_properties` over the selected rows. */
  method Render(tag: Tag, ids: seq<string>, contents: seq<string>) returns (text: string)
    requires |ids| == |contents|
    ensures text == Join("\n\n", WrapAll(tag, ids, contents))
  {
    var parts := [];
    for i := 0 to |ids|
      invariant parts == WrapAll(tag, ids[..i], contents[..i])
    {
      parts := parts + [Wrap(tag, ids[i], contents[i])];
    }
    assert ids[..|ids|] == ids && contents[..|ids|] == contents;
    text := Join("\n\n", parts);
  }

  /** The first occurrence at or after `start`, or the length of the text. */
  function Find(pattern: string, s: string, start: nat): (k: nat)
    requires pattern != "" && start <= |s|
    ensures start <= k <= |s| && (k < |s| ==> At(pattern, s, k))
    decreases |s| - start
  {
    if start == |s| || At(pattern, s, start) then start else Find(pattern, s, start + 1)
  }

  /** The text cut at each closing tag: one more piece than there are tags. */
  function Pieces(pattern: string, s: string): seq<string>
    requires pattern != ""
    decreases |s|
  {
    var k := Find(pattern, s, 0);
    if k == |s| then [s] else [s[..k]] + Pieces(pattern, s[k + |pattern|..])
  }

  /** What the reader takes from a piece: the text inside the opening tag's line and the last line break. */
  function Body(piece: string): string {
    var k := Find(">", piece, 0);
    if k + 2 < |piece| then piece[k + 2..|piece| - 1] else ""
  }

  /** The id in a piece's opening tag. */
  function IdOf(tag: Tag, piece: string): string {
    var from, to := Find("<", piece, 0) + |tag.Opening("")| - 2, Find(">", piece, 0) - 1;
    if 0 <= from <= to <= |piece| then piece[from..to] else ""
  }

  lemma {:induction false} FindFirst(pattern: string, s: string, start: nat, k: nat)
    requires pattern != "" && start <= k <= |s| && (k < |s| ==> At(pattern, s, k))
    requires forall i :: start <= i < k ==> !At(pattern, s, i)
    ensures Find(pattern, s, start) == k
    decreases k - start
  {
    if start < k {
      FindFirst(pattern, s, start + 1, k);
    }
  }

  // ---- where a closing tag can be ----

  lemma NewlineStopsTag(pattern: string, x: string, z: string, i: nat)
    requires '\n' !in pattern && i < |x| && x[|x| - 1] == '\n' && Free(pattern, x)
    ensures !At(pattern, x + z, i)
  {
    if i + |pattern| <= |x| {
      AtInHead(pattern, x, z, i);
    } else if At(pattern, x + z, i) {
      AtCharacter(pattern, x + z, i, |x| - 1 - i);
    }
  }

  lemma FreeWithNewline(pattern: string, x: string)
    requires '\n' !in pattern && pattern != "" && Free(pattern, x)
    ensures Free(pattern, x + "\n")
  {
    forall i: nat ensures !At(pattern, x + "\n", i) {
      if i + |pattern| <= |x| {
        AtInHead(pattern, x, "\n", i);
      } else if At(pattern, x + "\n", i) {
        AtCharacter(pattern, x + "\n", i, |x| - i);
      }
    }
  }

  lemma FreeLines(pattern: string, x: string, y: string)
    requires '\n' !in pattern && pattern != "" && Free(pattern, x) && Free(pattern, y)
    ensures Free(pattern, x + "\n" + y)
  {
    FreeWithNewline(pattern, x);
    var line := x + "\n";
    forall i: nat ensures !At(pattern, line + y, i) {
      if i < |line| {
        NewlineStopsTag(pattern, line, y, i);
      } else {
        AtInTail(pattern, line, y, i);
      }
    }
  }

  /** An id without markup cannot smuggle a closing tag into the opening one. */
  predicate CleanId(id: string) { '<' !in id && '>' !in id && '\n' !in id }

  lemma OpeningIsFree(tag: Tag, id: string)
    requires tag.Valid() && CleanId(id)
    ensures Free(tag.Closing(), tag.Opening(id))
  {
    var opening := tag.Opening(id);
    forall i: nat ensures !At(tag.Closing(), opening, i) {
      if At(tag.Closing(), opening, i) {
        AtCharacter(tag.Closing(), opening, i, 0);
        AtCharacter(tag.Closing(), opening, i, 1);
        OpeningCharacters(tag, id, i);
      }
    }
  }

  /** '<' opens the tag and is followed by its name; '>' only ends it. */
  lemma OpeningCharacters(tag: Tag, id: string, i: nat)
    requires tag.Valid() && CleanId(id) && i < |tag.Opening(id)|
    ensures tag.Opening(id)[i] == '<' ==> i == 0 && tag.Opening(id)[1] == tag.name[0]
    ensures tag.Opening(id)[i] == '>' <==> i == |tag.Opening(id)| - 1
    ensures tag.Opening(id)[i] != '\n'
  {
    var middle := " untrusted=\"true\" ";
    var a, b, c := 1 + |tag.name|, 1 + |tag.name| + |middle|, 1 + |tag.name| + |middle| + |tag.attribute|;
    var o := tag.Opening(id);
    assert o == "<" + tag.name + middle + tag.attribute + "=\"" + id + "\">";
    if 1 <= i < a { assert o[i] == tag.name[i - 1]; }
    else if a <= i < b { assert o[i] == middle[i - a]; }
    else if b <= i < c { assert o[i] == tag.attribute[i - b]; }
    else if c <= i < c + 2 { assert o[i] == "=\""[i - c]; }
    else if c + 2 <= i < c + 2 + |id| { assert o[i] == id[i - c - 2]; }
  }

  // ---- the scan finds each wrapper's own closing tag ----

  /** A record up to its closing tag, after `lead`. */
  function Block(lead: string, tag: Tag, id: string, content: string): string {
    lead + tag.Opening(id) + "\n" + Escape(tag, content) + "\n"
  }

  predicate NoAngles(s: string) { forall i :: 0 <= i < |s| ==> s[i] != '<' && s[i] != '>' }

  /** Nothing, or whole lines without angle brackets. */
  predicate IsLead(lead: string) { lead == "" || (lead[|lead| - 1] == '\n' && NoAngles(lead)) }

  lemma ClosingShape(tag: Tag)
    requires tag.Valid()
    ensures '\n' !in tag.Closing() && |tag.Closing()| > 2
  {
    var t := tag.Closing();
    assert forall i :: 2 <= i < |t| - 1 ==> t[i] == tag.name[i - 2];
  }

  lemma PlainIsFree(t: string, s: string)
    requires t != "" && t[0] == '<' && '<' !in s
    ensures Free(t, s)
  {
    forall i: nat ensures !At(t, s, i) {
      if At(t, s, i) { AtCharacter(t, s, i, 0); }
    }
  }

  lemma BlockIsFree(lead: string, tag: Tag, id: string, content: string)
    requires IsLead(lead) && tag.Valid() && CleanId(id)
    ensures Free(tag.Closing(), Block(lead, tag, id, content))
  {
    var t, o := tag.Closing(), tag.Opening(id);
    ClosingShape(tag);
    OpeningIsFree(tag, id);
    EscapedIsFree(tag, content);
    if lead == "" {
      assert lead + o == o;
    } else {
      var l := lead[..|lead| - 1];
      PlainIsFree(t, l);
      FreeLines(t, l, o);
      assert lead + o == l + "\n" + o;
    }
    FreeLines(t, lead + o, Escape(tag, content));
    FreeWithNewline(t, lead + o + "\n" + Escape(tag, content));
  }

  lemma FirstTagAt(t: string, x: string, rest: string)
    requires t != "" && '\n' !in t && x != "" && x[|x| - 1] == '\n' && Free(t, x)
    ensures Find(t, x + (t + rest), 0) == |x|
  {
    var s := x + (t + rest);
    forall i | 0 <= i < |x| ensures !At(t, s, i) {
      NewlineStopsTag(t, x, t + rest, i);
    }
    AtInTail(t, x, t + rest, |x|);
    assert At(t, t + rest, 0);
    FindFirst(t, s, 0, |x|);
  }

  lemma Cut(x: string, t: string, rest: string)
    ensures var s := x + (t + rest); s[..|x|] == x && s[|x| + |t|..] == rest
  {
  }

  lemma CutAtTag(t: string, x: string, rest: string)
    requires t != "" && '\n' !in t && x != "" && x[|x| - 1] == '\n' && Free(t, x)
    ensures Pieces(t, x + (t + rest)) == [x] + Pieces(t, rest)
  {
    FirstTagAt(t, x, rest);
    Cut(x, t, rest);
  }

  /** The next closing tag after a record's start is that record's own. */
  lemma NextTagIsOwn(lead: string, tag: Tag, id: string, content: string, rest: string)
    requires IsLead(lead) && tag.Valid() && CleanId(id)
    ensures Pieces(tag.Closing(), lead + Wrap(tag, id, content) + rest)
         == [Block(lead, tag, id, content)] + Pieces(tag.Closing(), rest)
  {
    var t, x := tag.Closing(), Block(lead, tag, id, content);
    assert lead + Wrap(tag, id, content) + rest == x + (t + rest);
    ClosingShape(tag);
    BlockIsFree(lead, tag, id, content);
    CutAtTag(t, x, rest);
  }

  lemma BodyOfBlock(lead: string, tag: Tag, id: string, content: string)
    requires IsLead(lead) && tag.Valid() && CleanId(id)
    ensures Body(Block(lead, tag, id, content)) == Escape(tag, content)
  {
    EndOfOpening(lead, tag, id, content);
    var x, k := Block(lead, tag, id, content), |lead| + |tag.Opening(id)| - 1;
    assert x[k + 2..|x| - 1] == Escape(tag, content);
  }

  lemma EndOfOpening(lead: string, tag: Tag, id: string, content: string)
    requires IsLead(lead) && tag.Valid() && CleanId(id)
    ensures Find(">", Block(lead, tag, id, content), 0) == |lead| + |tag.Opening(id)| - 1
  {
    var o := tag.Opening(id);
    var x, k := Block(lead, tag, id, content), |lead| + |o| - 1;
    forall i | 0 <= i <= k ensures x[i] == '>' <==> i == k {
      if |lead| <= i {
        OpeningCharacters(tag, id, i - |lead|);
        assert x[i] == o[i - |lead|];
      } else {
        assert x[i] == lead[i];
      }
    }
    forall i | 0 <= i <= k ensures At(">", x, i) <==> i == k {
      assert x[i..i + 1] == [x[i]];
    }
    FindFirst(">", x, 0, k);
  }

  lemma FirstAngle(lead: string, rest: string)
    requires IsLead(lead) && rest != "" && rest[0] == '<'
    ensures Find("<", lead + rest, 0) == |lead|
  {
    var x := lead + rest;
    forall i | 0 <= i <= |lead| ensures At("<", x, i) <==> i == |lead| {
      assert x[i..i + 1] == [x[i]] && x[i] == if i < |lead| then lead[i] else rest[0];
    }
    FindFirst("<", x, 0, |lead|);
  }

  lemma IdInOpening(tag: Tag, id: string)
    ensures var o, n := tag.Opening(id), |tag.Opening("")| - 2;
            n >= 0 && |o| == n + |id| + 2 && o[n..n + |id|] == id && o[0] == '<'
  {
    var prefix := "<" + tag.name + " untrusted=\"true\" " + tag.attribute + "=\"";
    assert tag.Opening("") == prefix + "" + "\">" && tag.Opening(id) == prefix + id + "\">";
  }

  lemma Within(a: string, b: string, c: string, i: nat, j: nat)
    requires i <= j <= |b|
    ensures (a + (b + c))[|a| + i..|a| + j] == b[i..j]
  {
  }

  lemma BlockStarts(lead: string, tag: Tag, id: string, content: string)
    requires IsLead(lead)
    ensures Block(lead, tag, id, content) == lead + (tag.Opening(id) + ("\n" + Escape(tag, content) + "\n"))
    ensures Find("<", Block(lead, tag, id, content), 0) == |lead|
  {
    FirstAngle(lead, tag.Opening(id) + ("\n" + Escape(tag, content) + "\n"));
  }

  lemma IdOfBlock(lead: string, tag: Tag, id: string, content: string)
    requires IsLead(lead) && tag.Valid() && CleanId(id)
    ensures IdOf(tag, Block(lead, tag, id, content)) == id
  {
    var o, tail := tag.Opening(id), "\n" + Escape(tag, content) + "\n";
    var n := |tag.Opening("")| - 2;
    IdInOpening(tag, id);
    BlockStarts(lead, tag, id, content);
    EndOfOpening(lead, tag, id, content);
    Within(lead, o, tail, n, n + |id|);
  }

  lemma WrapAllCons(tag: Tag, ids: seq<string>, contents: seq<string>)
    requires |ids| == |contents| && ids != []
    ensures WrapAll(tag, ids, contents) == [Wrap(tag, ids[0], contents[0])] + WrapAll(tag, ids[1..], contents[1..])
  {
  }

  lemma NextPiece(tag: Tag, ids: seq<string>, contents: seq<string>)
    requires tag.Valid() && 0 < |ids| == |contents| && CleanId(ids[0])
    ensures Pieces(tag.Closing(), JoinRest("\n\n", WrapAll(tag, ids, contents)))
         == [Block("\n\n", tag, ids[0], contents[0])]
          + Pieces(tag.Closing(), JoinRest("\n\n", WrapAll(tag, ids[1..], contents[1..])))
  {
    WrapAllCons(tag, ids, contents);
    NextTagIsOwn("\n\n", tag, ids[0], contents[0], JoinRest("\n\n", WrapAll(tag, ids[1..], contents[1..])));
  }

  lemma {:induction false} RestPieces(tag: Tag, ids: seq<string>, contents: seq<string>)
    requires tag.Valid() && |ids| == |contents| && forall i :: 0 <= i < |ids| ==> CleanId(ids[i])
    ensures var ps := Pieces(tag.Closing(), JoinRest("\n\n", WrapAll(tag, ids, contents)));
            && |ps| == |ids| + 1 && ps[|ids|] == ""
            && forall i :: 0 <= i < |ids| ==> ps[i] == Block("\n\n", tag, ids[i], contents[i])
  {
    if ids == [] {
    } else {
      RestPieces(tag, ids[1..], contents[1..]);
      NextPiece(tag, ids, contents);
    }
  }

  function LeadOf(lead: string, i: nat): string { if i == 0 then lead else "\n\n" }

  lemma FirstPiece(lead: string, tag: Tag, ids: seq<string>, contents: seq<string>)
    requires IsLead(lead) && tag.Valid() && 0 < |ids| == |contents| && CleanId(ids[0])
    ensures Pieces(tag.Closing(), lead + Join("\n\n", WrapAll(tag, ids, contents)))
         == [Block(lead, tag, ids[0], contents[0])]
          + Pieces(tag.Closing(), JoinRest("\n\n", WrapAll(tag, ids[1..], contents[1..])))
  {
    var rest := JoinRest("\n\n", WrapAll(tag, ids[1..], contents[1..]));
    WrapAllCons(tag, ids, contents);
    Associate(lead, Wrap(tag, ids[0], contents[0]), rest);
    NextTagIsOwn(lead, tag, ids[0], contents[0], rest);
  }

  lemma Associate(a: string, b: string, c: string)
    ensures a + (b + c) == a + b + c
  {
  }

  lemma AllPieces(lead: string, tag: Tag, ids: seq<string>, contents: seq<string>)
    requires IsLead(lead) && tag.Valid() && 0 < |ids| == |contents| && forall i :: 0 <= i < |ids| ==> CleanId(ids[i])
    ensures var ps := Pieces(tag.Closing(), lead + Join("\n\n", WrapAll(tag, ids, contents)));
            && |ps| == |ids| + 1 && ps[|ids|] == ""
            && forall i :: 0 <= i < |ids| ==> ps[i] == Block(LeadOf(lead, i), tag, ids[i], contents[i])
  {
    RestPieces(tag, ids[1..], contents[1..]);
    FirstPiece(lead, tag, ids, contents);
  }

  /**
    Scanning the text from closing tag to closing tag finds the given records, in order, and nothing
    after the last: each under its id, with its escaped content, which is the content itself unless that
    holds a closing tag.
   */
  ghost predicate Scans(text: string, tag: Tag, ids: seq<string>, contents: seq<string>)
    requires |ids| == |contents|
  {
    var ps := Pieces(tag.Closing(), text);
    && |ps| == |ids| + 1 && ps[|ids|] == ""
    && forall i :: 0 <= i < |ids| ==> Finds(ps[i], tag, ids[i], contents[i])
  }

  ghost predicate Finds(piece: string, tag: Tag, id: string, content: string) {
    && IdOf(tag, piece) == id && Body(piece) == Escape(tag, content)
    && (Free(tag.Closing(), content) ==> Body(piece) == content)
  }

  lemma BlockFinds(lead: string, tag: Tag, id: string, content: string)
    requires IsLead(lead) && tag.Valid() && CleanId(id)
    ensures Finds(Block(lead, tag, id, content), tag, id, content)
  {
    BodyOfBlock(lead, tag, id, content);
    IdOfBlock(lead, tag, id, content);
    if Free(tag.Closing(), content) { ReplaceKeepsFree(content, tag.Closing(), tag.Escaped()); }
  }

  lemma BlocksFind(ps: seq<string>, lead: string, tag: Tag, ids: seq<string>, contents: seq<string>)
    requires IsLead(lead) && tag.Valid() && |ids| == |contents| <= |ps|
    requires forall i :: 0 <= i < |ids| ==> CleanId(ids[i]) && ps[i] == Block(LeadOf(lead, i), tag, ids[i], contents[i])
    ensures forall i :: 0 <= i < |ids| ==> Finds(ps[i], tag, ids[i], contents[i])
  {
    forall i | 0 <= i < |ids| {
      BlockFinds(LeadOf(lead, i), tag, ids[i], contents[i]);
    }
  }

  /** For any contents: records joined by blank lines, after any lines without angle brackets, are found by the scan. */
  lemma ScanRecoversBodies(lead: string, tag: Tag, ids: seq<string>, contents: seq<string>)
    requires IsLead(lead) && tag.Valid() && 0 < |ids| == |contents| && forall i :: 0 <= i < |ids| ==> CleanId(ids[i])
    ensures Scans(lead + Join("\n\n", WrapAll(tag, ids, contents)), tag, ids, contents)
  {
    AllPieces(lead, tag, ids, contents);
    BlocksFind(Pieces(tag.Closing(), lead + Join("\n\n", WrapAll(tag, ids, contents))), lead, tag, ids, contents);
  }

  lemma ScanRecoversAll(tag: Tag, ids: seq<string>, contents: seq<string>)
    requires tag.Valid() && 0 < |ids| == |contents| && forall i :: 0 <= i < |ids| ==> CleanId(ids[i])
    ensures Scans(Join("\n\n", WrapAll(tag, ids, contents)), tag, ids, contents)
  {
    ScanRecoversBodies("", tag, ids, contents);
    NoLead(Join("\n\n", WrapAll(tag, ids, contents)));
  }

  lemma NoLead(text: string)
    ensures "" + text == text
  {
  }

  lemma MemoryTagIsValid()
    ensures MEMORY.Valid()
  {
  }

  lemma FactTagIsValid()
    ensures FACT.Valid()
  {
  }

  lemma PropertyTagIsValid()
    ensures PROPERTY.Valid()
  {
  }

  lemma MemoryTagIs()
    ensures MEMORY.Closing() == "</retrieved_memory>" && MEMORY.Escaped() == "&lt;/retrieved_memory&gt;"
  {
  }

  lemma FactTagIs()
    ensures FACT.Closing() == "</retrieved_fact>" && FACT.Escaped() == "&lt;/retrieved_fact&gt;"
  {
  }

  lemma PropertyTagIs()
    ensures PROPERTY.Closing() == "</retrieved_property>" && PROPERTY.Escaped() == "&lt;/retrieved_property&gt;"
  {
  }

  /** What wraps a memory, and what stands for a closing tag in it. */
  lemma WrappedMemory(id: string, content: string)
    requires Free("</retrieved_memory>", content)
    ensures Wrap(MEMORY, id, content)
         == "<" + "retrieved_memory" + " untrusted=\"true\" " + "id" + "=\"" + id + "\">"
          + "\n" + content + "\n" + "</retrieved_memory>"
    ensures MEMORY.Escaped() == "&lt;/retrieved_memory&gt;"
  {
    MemoryTagIs();
    ReplaceKeepsFree(content, MEMORY.Closing(), MEMORY.Escaped());
  }

  lemma WrappedFact(id: string, content: string)
    requires Free("</retrieved_fact>", content)
    ensures Wrap(FACT, id, content)
         == "<" + "retrieved_fact" + " untrusted=\"true\" " + "id" + "=\"" + id + "\">"
          + "\n" + content + "\n" + "</retrieved_fact>"
    ensures FACT.Escaped() == "&lt;/retrieved_fact&gt;"
  {
    FactTagIs();
    ReplaceKeepsFree(content, FACT.Closing(), FACT.Escaped());
  }

  lemma WrappedProperty(ptype: string, content: string)
    requires Free("</retrieved_property>", content)
    ensures Wrap(PROPERTY, ptype, content)
         == "<" + "retrieved_property" + " untrusted=\"true\" " + "type" + "=\"" + ptype + "\">"
          + "\n" + content + "\n" + "</retrieved_property>"
    ensures PROPERTY.Escaped() == "&lt;/retrieved_property&gt;"
  {
    PropertyTagIs();
    ReplaceKeepsFree(content, PROPERTY.Closing(), PROPERTY.Escaped());
  }

  /** The escape itself is not undone by the reader: two contents can share an escaped body. */
  lemma EscapeIsNotInjective(tag: Tag)
    requires tag.Valid()
    ensures tag.Closing() != tag.Escaped() && Escape(tag, tag.Closing()) == Escape(tag, tag.Escaped())
  {
    var t, e := tag.Closing(), tag.Escaped();
    assert t[..|t|] == t && t[|t|..] == "";
    assert Replace("", t, e) == "";
    assert Escape(tag, t) == e + "" == e;
    NoTagNoChange(e, t, e);
  }

  lemma {:induction false} NoTagNoChange(s: string, pattern: string, replacement: string)
    requires pattern != "" && pattern[0] !in s
    ensures Replace(s, pattern, replacement) == s
  {
    if |s| >= |pattern| {
      NoTagNoChange(s[1..], pattern, replacement);
      assert s == [s[0]] + s[1..];
    }
  }
}
