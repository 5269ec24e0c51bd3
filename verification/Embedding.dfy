/**
  Printing an embedding for pgvector and reading it back.

  Element printing and parsing are parameters: `print` is `str(float)` and `parse` is `float(text)`,
  which fails on the empty text.
 */
module Embedding {
  import opened Prelude
  import opened PyText

  /** The elements print to text without whitespace, comma or bracket, and parse back. */
  ghost predicate RoundTrips<E(!new)>(show: E -> string, parse: string -> Option<E>) {
    && parse("") == None
    && forall x :: parse(show(x)) == Some(x) && Clean(show(x))
  }

  predicate Clean(s: string) {
    forall i :: 0 <= i < |s| ==> !IsSpace(s[i]) && s[i] != ',' && s[i] != '[' && s[i] != ']'
  }

  function Shown<E>(vec: seq<E>, show: E -> string): (parts: seq<string>)
    ensures |parts| == |vec| && forall i :: 0 <= i < |vec| ==> parts[i] == show(vec[i])
  {
    seq(|vec|, i requires 0 <= i < |vec| => show(vec[i]))
  }

  function FormatEmbedding<E>(vec: seq<E>, show: E -> string): string {
    "[" + Join(",", Shown(vec, show)) + "]"
  }

  // ---- reading back ----

  function ParseAll<E>(parts: seq<string>, parse: string -> Option<E>): Option<seq<E>> {
    if parts == [] then Some([])
    else
      match (parse(parts[0]), ParseAll(parts[1..], parse))
      case (Some(x), Some(rest)) => Some([x] + rest)
      case _ => None
  }

  /** `raw.strip().lstrip("[").rstrip("]")` */
  function Inner(raw: string): string {
    RStrip(LStrip(RStrip(LStrip(raw, IsSpace), IsSpace), (c: char) => c == '['), (c: char) => c == ']')
  }

  /** `None` when an element does not parse (the source raises ValueError). */
  function NormalizeEmbedding<E>(raw: string, parse: string -> Option<E>): Option<seq<E>> {
    var inner := Inner(raw);
    if inner == "" then Some([]) else ParseAll(Split(inner, ','), parse)
  }

  // ---- round trip ----

  lemma {:induction false} ParseShown<E(!new)>(vec: seq<E>, show: E -> string, parse: string -> Option<E>)
    requires RoundTrips(show, parse)
    ensures ParseAll(Shown(vec, show), parse) == Some(vec)
  {
    if vec != [] {
      ParseShown(vec[1..], show, parse);
      assert Shown(vec, show)[1..] == Shown(vec[1..], show);
      assert [vec[0]] + vec[1..] == vec;
    }
  }

  predicate NoBracketOrSpace(s: string) {
    forall i :: 0 <= i < |s| ==> !IsSpace(s[i]) && s[i] != '[' && s[i] != ']'
  }

  lemma {:induction false} JoinedIsBare(parts: seq<string>)
    requires forall i :: 0 <= i < |parts| ==> Clean(parts[i])
    ensures NoBracketOrSpace(JoinRest(",", parts))
  {
    if parts != [] {
      JoinedIsBare(parts[1..]);
      assert Clean(parts[0]);
    }
  }

  lemma StripKeeps(raw: string)
    requires raw != "" && !IsSpace(raw[0]) && !IsSpace(raw[|raw| - 1])
    ensures RStrip(LStrip(raw, IsSpace), IsSpace) == raw
  {
  }

  lemma OpenStripped(rest: string, isOpen: char -> bool)
    requires rest != "" && isOpen('[') && !isOpen(rest[0])
    ensures LStrip("[" + rest, isOpen) == rest
  {
    assert ("[" + rest)[1..] == rest;
  }

  lemma CloseStripped(inner: string, isClose: char -> bool)
    requires isClose(']') && (inner != "" ==> !isClose(inner[|inner| - 1]))
    ensures RStrip(inner + "]", isClose) == inner
  {
    assert (inner + "]")[..|inner|] == inner;
  }

  lemma StripBrackets(inner: string)
    requires NoBracketOrSpace(inner)
    ensures Inner("[" + inner + "]") == inner
  {
    var raw := "[" + inner + "]";
    assert raw[|raw| - 1] == ']' && raw == "[" + (inner + "]");
    StripKeeps(raw);
    if inner != "" { assert (inner + "]")[0] == inner[0]; }
    OpenStripped(inner + "]", (c: char) => c == '[');
    CloseStripped(inner, (c: char) => c == ']');
  }

  /** Every vector, the empty one included, survives printing and parsing. */
  lemma EmbeddingRoundTrip<E(!new)>(vec: seq<E>, show: E -> string, parse: string -> Option<E>)
    requires RoundTrips(show, parse)
    ensures NormalizeEmbedding(FormatEmbedding(vec, show), parse) == Some(vec)
  {
    var parts := Shown(vec, show);
    var inner := Join(",", parts);
    if vec == [] {
      StripBrackets(inner);
    } else {
      assert forall i :: 0 <= i < |parts| ==> parts[i] == show(vec[i]) && Clean(parts[i]);
      JoinedIsBare(parts[1..]);
      assert NoBracketOrSpace(inner) by { assert Clean(parts[0]); }
      StripBrackets(inner);
      assert inner != "" by { assert parse(show(vec[0])).Some?; assert parts[0] != ""; }
      SplitJoin(',', parts);
      ParseShown(vec, show, parse);
    }
  }
}
