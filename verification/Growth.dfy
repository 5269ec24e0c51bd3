/**
  The growth block appended to a Self Core: active adaptations grouped by category, one folded text
  for a category with a single adaptation, a quoted list for one with several.
 */
module Growth {
  import opened PyText
  import opened Store
  import opened Crypto

  datatype Adaptation = Adaptation(category: Category, content: string)

  datatype Group = Group(category: Category, items: seq<string>)

  function CategoryLabel(c: Category): string {
    match c
    case RelationshipDepth => "relationship_depth"
    case TopicStance => "topic_stances"
    case BehavioralRefinement => "behavioral_notes"
    case SharedReference => "shared_references"
    case EmotionalCalibration => "emotional_calibration"
    case OtherCategory(text) => text
  }

  // ---- grouping: a dict of lists keeps its keys in order of first use ----

  function AddTo(groups: seq<Group>, a: Adaptation): seq<Group> {
    if groups == [] then [Group(a.category, [a.content])]
    else if groups[0].category == a.category then [groups[0].(items := groups[0].items + [a.content])] + groups[1..]
    else [groups[0]] + AddTo(groups[1..], a)
  }

  function Groups(adaptations: seq<Adaptation>): seq<Group> {
    if adaptations == [] then []
    else AddTo(Groups(adaptations[..|adaptations| - 1]), adaptations[|adaptations| - 1])
  }

  // ---- layout ----

  const TITLE := "# ── Growth (learned from experience) ──"
  const INDENT := "    "

  function OneLine(item: string): string { Join(" ", SplitLines(Strip(item))) }

  /** A heading line and the lines indented below it. */
  datatype Section = Section(head: string, body: seq<string>)

  function SectionOf(g: Group): Section {
    var heading := CategoryLabel(g.category);
    if |g.items| == 1 then Section("  " + heading + ": >", FoldedLines(SplitLines(Strip(g.items[0]))))
    else Section("  " + heading + ":", ListedLines(g.items))
  }

  function Sections(groups: seq<Group>): (r: seq<Section>)
    ensures |r| == |groups| && forall i :: 0 <= i < |r| ==> r[i] == SectionOf(groups[i])
  {
    seq(|groups|, i requires 0 <= i < |groups| => SectionOf(groups[i]))
  }

  function Flatten(sections: seq<Section>): seq<string> {
    if sections == [] then [] else [sections[0].head] + sections[0].body + Flatten(sections[1..])
  }

  function FoldedLines(lines: seq<string>): (r: seq<string>)
    ensures |r| == |lines| && forall i :: 0 <= i < |r| ==> r[i] == INDENT + lines[i]
  {
    seq(|lines|, i requires 0 <= i < |lines| => INDENT + lines[i])
  }

  function ListedLines(items: seq<string>): (r: seq<string>)
    ensures |r| == |items| && forall i :: 0 <= i < |r| ==> r[i] == INDENT + "- \"" + OneLine(items[i]) + "\""
  {
    seq(|items|, i requires 0 <= i < |items| => INDENT + "- \"" + OneLine(items[i]) + "\"")
  }

  const TOP: seq<string> := [TITLE, "growth:"]

  function Layout(groups: seq<Group>): string {
    Join("\n", TOP + Flatten(Sections(groups))) + "\n"
  }

  lemma {:induction false} FlattenSnoc(sections: seq<Section>, x: Section)
    ensures Flatten(sections + [x]) == Flatten(sections) + [x.head] + x.body
  {
    if sections == [] {
      assert [] + [x] == [x] && [x][1..] == [];
      assert Flatten([x]) == [x.head] + x.body + [];
    } else {
      FlattenSnoc(sections[1..], x);
      assert (sections + [x])[1..] == sections[1..] + [x];
    }
  }

  method FormatAdaptations(adaptations: seq<Adaptation>) returns (text: string)
    ensures text == Layout(Groups(adaptations))
  {
    var byCategory := GroupByCategory(adaptations);
    var lines := LayoutLines(byCategory);
    text := Join("\n", lines) + "\n";
  }

  lemma NextSection(top: seq<string>, sections: seq<Section>, g: nat)
    requires g < |sections|
    ensures top + Flatten(sections[..g + 1]) == top + Flatten(sections[..g]) + [sections[g].head] + sections[g].body
  {
    FlattenSnoc(sections[..g], sections[g]);
    assert sections[..g + 1] == sections[..g] + [sections[g]];
  }

  method LayoutLines(byCategory: seq<Group>) returns (lines: seq<string>)
    ensures lines == TOP + Flatten(Sections(byCategory))
  {
    lines := TOP;
    ghost var sections := Sections(byCategory);
    for g := 0 to |byCategory|
      invariant lines == TOP + Flatten(sections[..g])
    {
      NextSection(TOP, sections, g);
      lines := AppendGroup(lines, byCategory[g]);
    }
    assert sections[..|byCategory|] == sections;
  }

  method GroupByCategory(adaptations: seq<Adaptation>) returns (byCategory: seq<Group>)
    ensures byCategory == Groups(adaptations)
  {
    byCategory := [];
    for i := 0 to |adaptations|
      invariant byCategory == Groups(adaptations[..i])
    {
      assert adaptations[..i + 1][..i] == adaptations[..i];
      byCategory := AddTo(byCategory, adaptations[i]);
    }
    assert adaptations[..|adaptations|] == adaptations;
  }

  method AppendGroup(before: seq<string>, g: Group) returns (lines: seq<string>)
    ensures lines == before + [SectionOf(g).head] + SectionOf(g).body
  {
    var heading := CategoryLabel(g.category);
    if |g.items| == 1 {
      lines := AppendFolded(before + ["  " + heading + ": >"], SplitLines(Strip(g.items[0])));
    } else {
      lines := AppendListed(before + ["  " + heading + ":"], g.items);
    }
  }

  method AppendFolded(before: seq<string>, folded: seq<string>) returns (lines: seq<string>)
    ensures lines == before + FoldedLines(folded)
  {
    lines := before;
    for i := 0 to |folded|
      invariant lines == before + FoldedLines(folded)[..i]
    {
      lines := lines + [INDENT + folded[i]];
    }
  }

  method AppendListed(before: seq<string>, items: seq<string>) returns (lines: seq<string>)
    ensures lines == before + ListedLines(items)
  {
    lines := before;
    for i := 0 to |items|
      invariant lines == before + ListedLines(items)[..i]
    {
      var textOneline := Join(" ", SplitLines(Strip(items[i])));
      lines := lines + [INDENT + "- \"" + textOneline + "\""];
    }
  }

  // ---- the reader ----

  datatype Entry = Folded(heading: string, lines: seq<string>) | Listed(heading: string, items: seq<string>)

  /** What a reader can get back of a group: content up to outer stripping and line folding. */
  function Readable(g: Group): Entry {
    if |g.items| == 1 then Folded(CategoryLabel(g.category), SplitLines(Strip(g.items[0])))
    else Listed(CategoryLabel(g.category), OneLines(g.items))
  }

  function OneLines(items: seq<string>): (r: seq<string>)
    ensures |r| == |items|
  {
    seq(|items|, i requires 0 <= i < |items| => OneLine(items[i]))
  }

  function Readables(groups: seq<Group>): (r: seq<Entry>)
    ensures |r| == |groups|
  {
    seq(|groups|, i requires 0 <= i < |groups| => Readable(groups[i]))
  }

  /** Lines of a body are indented by four; a heading only by two. */
  predicate IsBodyLine(line: string) { INDENT <= line }

  function BodyLength(lines: seq<string>): (n: nat)
    ensures n <= |lines|
  {
    if lines == [] || !IsBodyLine(lines[0]) then 0 else 1 + BodyLength(lines[1..])
  }

  function Slice(s: string, from: nat, drop: nat): string {
    if from + drop <= |s| then s[from..|s| - drop] else ""
  }

  function Slices(lines: seq<string>, from: nat, drop: nat): (r: seq<string>)
    ensures |r| == |lines|
  {
    seq(|lines|, i requires 0 <= i < |lines| => Slice(lines[i], from, drop))
  }

  function ReadEntry(head: string, body: seq<string>): Entry {
    if head != "" && head[|head| - 1] == '>' then Folded(Slice(head, 2, 3), Slices(body, 4, 0))
    else Listed(Slice(head, 2, 1), Slices(body, 7, 1))
  }

  function ReadGroups(lines: seq<string>): seq<Entry> {
    if lines == [] then []
    else
      var n := BodyLength(lines[1..]);
      [ReadEntry(lines[0], lines[1..1 + n])] + ReadGroups(lines[1 + n..])
  }

  /** The reader: cut at line feeds, skip the two title lines and the text after the last line feed. */
  function ReadGrowth(text: string): seq<Entry> {
    var lines := Split(text, '\n');
    if |lines| < 3 then [] else ReadGroups(lines[2..|lines| - 1])
  }

  // ---- the layout is unambiguous ----

  /** A heading the layout can carry; the five stored categories all have one. */
  predicate HeadingOk(s: string) { s != "" && s[0] != ' ' && '\n' !in s }

  ghost predicate HeadingsOk(groups: seq<Group>) {
    forall i :: 0 <= i < |groups| ==> HeadingOk(CategoryLabel(groups[i].category))
  }

  lemma StoredCategoriesAreOk(c: Category)
    requires !c.OtherCategory?
    ensures HeadingOk(CategoryLabel(c))
  {
  }

  lemma {:induction false} NoFeed(sep: string, parts: seq<string>)
    requires '\n' !in sep && forall i :: 0 <= i < |parts| ==> '\n' !in parts[i]
    ensures '\n' !in JoinRest(sep, parts)
  {
    if parts != [] {
      NoFeed(sep, parts[1..]);
    }
  }

  lemma LinesHaveNoFeed(item: string)
    ensures forall i :: 0 <= i < |SplitLines(Strip(item))| ==> '\n' !in SplitLines(Strip(item))[i]
    ensures '\n' !in OneLine(item)
  {
    var lines := SplitLines(Strip(item));
    forall i | 0 <= i < |lines| ensures '\n' !in lines[i] {
      assert forall j :: 0 <= j < |lines[i]| ==> !IsBreak(lines[i][j]);
    }
    if lines != [] {
      NoFeed(" ", lines[1..]);
    }
  }

  /** What makes a section recognisable line by line. */
  ghost predicate Distinct(x: Section) {
    && !IsBodyLine(x.head) && '\n' !in x.head
    && forall i :: 0 <= i < |x.body| ==> IsBodyLine(x.body[i]) && '\n' !in x.body[i]
  }

  lemma SectionIsDistinct(g: Group)
    requires HeadingOk(CategoryLabel(g.category))
    ensures Distinct(SectionOf(g))
  {
    var x := SectionOf(g);
    assert x.head[2] == CategoryLabel(g.category)[0];
    forall i | 0 <= i < |x.body|
      ensures IsBodyLine(x.body[i]) && '\n' !in x.body[i]
    {
      LinesHaveNoFeed(if |g.items| == 1 then g.items[0] else g.items[i]);
    }
  }

  lemma SliceMiddle(prefix: string, middle: string, suffix: string)
    ensures Slice(prefix + middle + suffix, |prefix|, |suffix|) == middle
  {
  }

  lemma FoldedReadsBack(heading: string, lines: seq<string>)
    ensures ReadEntry("  " + heading + ": >", FoldedLines(lines)) == Folded(heading, lines)
  {
    SliceMiddle("  ", heading, ": >");
    forall i | 0 <= i < |lines| ensures Slice(INDENT + lines[i], 4, 0) == lines[i] {
      SliceMiddle(INDENT, lines[i], "");
      assert INDENT + lines[i] + "" == INDENT + lines[i];
    }
    assert Slices(FoldedLines(lines), 4, 0) == lines;
  }

  lemma ListedReadsBack(heading: string, items: seq<string>)
    ensures ReadEntry("  " + heading + ":", ListedLines(items)) == Listed(heading, OneLines(items))
  {
    SliceMiddle("  ", heading, ":");
    forall i | 0 <= i < |items| ensures Slice(ListedLines(items)[i], 7, 1) == OneLine(items[i]) {
      SliceMiddle(INDENT + "- \"", OneLine(items[i]), "\"");
    }
    assert Slices(ListedLines(items), 7, 1) == OneLines(items);
  }

  lemma EntryReadsBack(g: Group)
    ensures ReadEntry(SectionOf(g).head, SectionOf(g).body) == Readable(g)
  {
    if |g.items| == 1 {
      FoldedReadsBack(CategoryLabel(g.category), SplitLines(Strip(g.items[0])));
    } else {
      ListedReadsBack(CategoryLabel(g.category), g.items);
    }
  }

  lemma {:induction false} BodyEnds(body: seq<string>, rest: seq<string>)
    requires forall i :: 0 <= i < |body| ==> IsBodyLine(body[i])
    requires rest != [] ==> !IsBodyLine(rest[0])
    ensures BodyLength(body + rest) == |body|
  {
    if body == [] {
      assert body + rest == rest;
    } else {
      BodyEnds(body[1..], rest);
      assert (body + rest)[1..] == body[1..] + rest;
    }
  }

  function ReadAll(sections: seq<Section>): (r: seq<Entry>)
    ensures |r| == |sections|
  {
    seq(|sections|, i requires 0 <= i < |sections| => ReadEntry(sections[i].head, sections[i].body))
  }

  lemma {:induction false} FirstGroup(x: Section, rest: seq<string>)
    requires Distinct(x) && (rest != [] ==> !IsBodyLine(rest[0]))
    ensures ReadGroups([x.head] + x.body + rest) == [ReadEntry(x.head, x.body)] + ReadGroups(rest)
  {
    BodyEnds(x.body, rest);
    Parts(x.head, x.body, rest);
  }

  lemma Parts(head: string, body: seq<string>, rest: seq<string>)
    ensures var lines := [head] + body + rest;
            && lines[0] == head && lines[1..] == body + rest
            && lines[1..1 + |body|] == body && lines[1 + |body|..] == rest
  {
  }

  lemma FlattenStarts(sections: seq<Section>)
    ensures if sections == [] then Flatten(sections) == []
            else Flatten(sections) != [] && Flatten(sections)[0] == sections[0].head
  {
  }

  lemma ReadAllCons(sections: seq<Section>)
    requires sections != []
    ensures ReadAll(sections) == [ReadEntry(sections[0].head, sections[0].body)] + ReadAll(sections[1..])
  {
  }

  /** Headings separate the sections, whatever their bodies say. */
  lemma {:induction false} SectionsReadBack(sections: seq<Section>)
    requires forall i :: 0 <= i < |sections| ==> Distinct(sections[i])
    ensures ReadGroups(Flatten(sections)) == ReadAll(sections)
  {
    if sections == [] {
    } else {
      SectionsReadBack(sections[1..]);
      FlattenStarts(sections[1..]);
      FirstGroup(sections[0], Flatten(sections[1..]));
      ReadAllCons(sections);
    }
  }

  lemma {:induction false} FlattenHasNoFeed(sections: seq<Section>)
    requires forall i :: 0 <= i < |sections| ==> Distinct(sections[i])
    ensures forall j :: 0 <= j < |Flatten(sections)| ==> '\n' !in Flatten(sections)[j]
  {
    if sections != [] {
      FlattenHasNoFeed(sections[1..]);
      assert Distinct(sections[0]);
    }
  }

  lemma TopHasNoFeed()
    ensures |TOP| == 2 && '\n' !in TOP[0] && '\n' !in TOP[1]
  {
  }

  lemma {:induction false} LinesReadBack(top: seq<string>, body: seq<string>)
    requires |top| == 2 && (forall i :: 0 <= i < 2 ==> '\n' !in top[i])
    requires forall i :: 0 <= i < |body| ==> '\n' !in body[i]
    ensures ReadGrowth(Join("\n", top + body) + "\n") == ReadGroups(body)
  {
    var lines := top + body;
    SplitJoinFeed(lines);
    assert (lines + [""])[2..|lines|] == body;
  }

  lemma LayoutReads(groups: seq<Group>)
    requires HeadingsOk(groups)
    ensures ReadGrowth(Layout(groups)) == Readables(groups)
  {
    var sections := Sections(groups);
    forall i | 0 <= i < |groups|
      ensures Distinct(sections[i]) && ReadEntry(sections[i].head, sections[i].body) == Readable(groups[i])
    {
      SectionIsDistinct(groups[i]);
      EntryReadsBack(groups[i]);
    }
    SectionsReadBack(sections);
    FlattenHasNoFeed(sections);
    TopHasNoFeed();
    LinesReadBack(TOP, Flatten(sections));
    assert ReadAll(sections) == Readables(groups);
  }

  // -- what the reader gets of an item, said by the item alone --

  /** `lines` are all the lines of the item between its outer whitespace. */
  ghost predicate FoldsTo(item: string, lines: seq<string>) {
    exists a, ends, b :: Parted(item, a, lines, ends, b)
  }

  predicate Parted(item: string, a: string, lines: seq<string>, ends: seq<string>, b: string) {
    Ended(lines, ends) && Trimmed(Glued(lines, ends)) && AllSpace(a) && AllSpace(b) && item == a + Glued(lines, ends) + b
  }

  lemma FoldsToIff(item: string, lines: seq<string>)
    ensures FoldsTo(item, lines) <==> lines == SplitLines(Strip(item))
  {
    if FoldsTo(item, lines) {
      var a, ends, b :| Parted(item, a, lines, ends, b);
      StripIs(a, Glued(lines, ends), b);
      SplitLinesIs(lines, ends);
    }
    var a, b := StripParts(item);
    var ends := SplitLinesParts(Strip(item));
    assert Parted(item, a, SplitLines(Strip(item)), ends, b);
  }

  /** The item's lines, one blank between neighbours. */
  ghost predicate ListedAs(item: string, text: string) {
    exists lines :: FoldsTo(item, lines) && text == Join(" ", lines)
  }

  /** A text of one line without outer whitespace is its own line. */
  lemma PlainItem(item: string)
    requires NoBreak(item) && Trimmed(item)
    ensures item != "" ==> FoldsTo(item, [item])
    ensures ListedAs(item, item)
  {
    if item == "" {
      assert Parted(item, "", [], [], "") && Join(" ", []) == item;
      assert FoldsTo(item, []);
    } else {
      PlainLine(item);
      assert Parted(item, "", [item], [""], "");
      JoinOne(" ", item);
    }
  }

  lemma PlainLine(item: string)
    requires NoBreak(item) && item != ""
    ensures Ended([item], [""]) && Glued([item], [""]) == item && "" + item + "" == item
  {
    assert [item][1..] == [] && [""][1..] == [];
    assert Glued([], []) == "" && item + ("" + "") == item;
  }

  /** The entry is that of the group: all of its items in order. */
  ghost predicate Carries(e: Entry, g: Group) {
    && e.heading == CategoryLabel(g.category)
    && if |g.items| == 1 then e.Folded? && FoldsTo(g.items[0], e.lines)
       else e.Listed? && |e.items| == |g.items| && forall i :: 0 <= i < |g.items| ==> ListedAs(g.items[i], e.items[i])
  }

  lemma ReadableCarries(g: Group)
    ensures Carries(Readable(g), g)
  {
    if |g.items| == 1 {
      FoldsToIff(g.items[0], SplitLines(Strip(g.items[0])));
    } else {
      forall i | 0 <= i < |g.items| ensures ListedAs(g.items[i], Readable(g).items[i]) {
        FoldsToIff(g.items[i], SplitLines(Strip(g.items[i])));
      }
    }
  }

  ghost predicate CarriesAll(entries: seq<Entry>, groups: seq<Group>) {
    |entries| == |groups| && forall i :: 0 <= i < |groups| ==> Carries(entries[i], groups[i])
  }

  /** For any content, the reader recovers every group, in order, with all its items in order. */
  lemma LayoutReadsBack(groups: seq<Group>)
    requires HeadingsOk(groups)
    ensures CarriesAll(ReadGrowth(Layout(groups)), groups)
  {
    LayoutReads(groups);
    forall i | 0 <= i < |groups| ensures Carries(Readables(groups)[i], groups[i]) {
      ReadableCarries(groups[i]);
    }
  }

  /** A heading tells which of the stored categories it is. */
  lemma LabelsAreDistinct(c: Category, d: Category)
    requires !c.OtherCategory? && !d.OtherCategory? && CategoryLabel(c) == CategoryLabel(d)
    ensures c == d
    ensures CategoryLabel(RelationshipDepth) == "relationship_depth" && CategoryLabel(TopicStance) == "topic_stances"
    ensures CategoryLabel(BehavioralRefinement) == "behavioral_notes" && CategoryLabel(SharedReference) == "shared_references"
    ensures CategoryLabel(EmotionalCalibration) == "emotional_calibration"
  {
    assert |CategoryLabel(c)| == |CategoryLabel(d)|;
  }

  lemma SplitJoinFeed(lines: seq<string>)
    requires lines != [] && forall i :: 0 <= i < |lines| ==> '\n' !in lines[i]
    ensures Split(Join("\n", lines) + "\n", '\n') == lines + [""]
  {
    SplitJoin('\n', lines + [""]);
    JoinSnocEmpty("\n", lines);
  }

  lemma {:induction false} JoinSnocEmpty(sep: string, parts: seq<string>)
    requires parts != []
    ensures Join(sep, parts + [""]) == Join(sep, parts) + sep
  {
    if |parts| == 1 {
      JoinOne(sep, parts[0]);
      assert parts + [""] == [parts[0], ""];
      JoinCons(sep, [parts[0], ""]);
      JoinOne(sep, "");
      assert [parts[0], ""][1..] == [""];
      assert parts == [parts[0]];
    } else {
      JoinSnocEmpty(sep, parts[1..]);
      JoinCons(sep, parts);
      JoinCons(sep, parts + [""]);
      assert (parts + [""])[1..] == parts[1..] + [""];
    }
  }

  // ---- every adaptation, once, in order ----

  /** The contents of one category, in the order given. */
  function Of(adaptations: seq<Adaptation>, c: Category): seq<string> {
    if adaptations == [] then []
    else
      var n := |adaptations| - 1;
      Of(adaptations[..n], c) + (if adaptations[n].category == c then [adaptations[n].content] else [])
  }

  function Items(groups: seq<Group>, c: Category): seq<string> {
    if groups == [] then []
    else if groups[0].category == c then groups[0].items
    else Items(groups[1..], c)
  }

  ghost predicate HasGroup(groups: seq<Group>, c: Category) {
    exists i :: 0 <= i < |groups| && groups[i].category == c
  }

  /** One group to a category. */
  ghost predicate Separate(groups: seq<Group>) {
    forall i, j :: 0 <= i < j < |groups| ==> groups[i].category != groups[j].category
  }

  function Size(groups: seq<Group>): nat {
    if groups == [] then 0 else |groups[0].items| + Size(groups[1..])
  }

  lemma {:induction false} AddToAdds(groups: seq<Group>, a: Adaptation, c: Category)
    ensures Items(AddTo(groups, a), c) == Items(groups, c) + (if a.category == c then [a.content] else [])
    ensures HasGroup(AddTo(groups, a), c) <==> HasGroup(groups, c) || c == a.category
    ensures Size(AddTo(groups, a)) == Size(groups) + 1
  {
    var after := AddTo(groups, a);
    if groups == [] {
      assert Items(after, c) == if a.category == c then [a.content] else [];
      assert after[0].category == a.category;
    } else {
      HasGroupCons(groups, c);
      HasGroupCons(after, c);
      if groups[0].category == a.category {
        assert after[1..] == groups[1..];
      } else {
        AddToAdds(groups[1..], a, c);
        assert after[1..] == AddTo(groups[1..], a);
      }
    }
  }

  lemma HasGroupCons(groups: seq<Group>, c: Category)
    requires groups != []
    ensures HasGroup(groups, c) <==> groups[0].category == c || HasGroup(groups[1..], c)
  {
    if HasGroup(groups[1..], c) {
      var i :| 0 <= i < |groups[1..]| && groups[1..][i].category == c;
      assert groups[i + 1].category == c;
    }
    if HasGroup(groups, c) && groups[0].category != c {
      var i :| 0 <= i < |groups| && groups[i].category == c;
      assert groups[1..][i - 1].category == c;
    }
  }

  lemma {:induction false} GroupsHold(adaptations: seq<Adaptation>, c: Category)
    ensures Items(Groups(adaptations), c) == Of(adaptations, c)
    ensures Size(Groups(adaptations)) == |adaptations|
  {
    if adaptations != [] {
      var n := |adaptations| - 1;
      GroupsHold(adaptations[..n], c);
      AddToAdds(Groups(adaptations[..n]), adaptations[n], c);
    }
  }

  lemma {:induction false} GroupsAreSeparate(adaptations: seq<Adaptation>)
    ensures Separate(Groups(adaptations))
  {
    if adaptations != [] {
      var n := |adaptations| - 1;
      GroupsAreSeparate(adaptations[..n]);
      AddToKeepsSeparate(Groups(adaptations[..n]), adaptations[n]);
    }
  }

  lemma {:induction false} AddToKeepsSeparate(groups: seq<Group>, a: Adaptation)
    requires Separate(groups)
    ensures Separate(AddTo(groups, a))
  {
    if groups != [] && groups[0].category != a.category {
      AddToKeepsSeparate(groups[1..], a);
      var tail := AddTo(groups[1..], a);
      forall j | 0 <= j < |tail| ensures tail[j].category != groups[0].category {
        AddToAdds(groups[1..], a, groups[0].category);
        assert HasGroup(tail, tail[j].category);
      }
    }
  }

  lemma {:induction false} ItemsOfGroup(groups: seq<Group>, i: nat)
    requires i < |groups| && Separate(groups)
    ensures Items(groups, groups[i].category) == groups[i].items
  {
    if i > 0 {
      ItemsOfGroup(groups[1..], i - 1);
    }
  }

  /**
    Reading the growth block back gives one entry per category, in order of first use; the entry of
    a category holds that category's adaptations, all of them, in order; and there are no others.
   */
  ghost predicate BlockHolds(adaptations: seq<Adaptation>) {
    var gs := Groups(adaptations);
    && CarriesAll(ReadGrowth(Layout(gs)), gs)
    && Separate(gs)
    && (forall i :: 0 <= i < |gs| ==> gs[i].items == Of(adaptations, gs[i].category))
    && Size(gs) == |adaptations|
  }

  lemma EveryAdaptationOnce(adaptations: seq<Adaptation>)
    requires forall i :: 0 <= i < |adaptations| ==> HeadingOk(CategoryLabel(adaptations[i].category))
    ensures BlockHolds(adaptations)
  {
    var gs := Groups(adaptations);
    GroupsAreSeparate(adaptations);
    forall i | 0 <= i < |gs|
      ensures gs[i].items == Of(adaptations, gs[i].category) && HeadingOk(CategoryLabel(gs[i].category))
    {
      ItemsOfGroup(gs, i);
      GroupsHold(adaptations, gs[i].category);
      GroupFromAdaptation(adaptations, i);
    }
    GroupsHold(adaptations, TopicStance);
    LayoutReadsBack(gs);
  }

  // ---- the block of stored rows ----

  /** The rows at the given positions, as the reader hands them on. */
  function Loaded(t: AdaptationTable, at: seq<nat>): (r: seq<Adaptation>)
    requires forall a :: 0 <= a < |at| ==> at[a] < |t|
    ensures |r| == |at|
  {
    seq(|at|, a requires 0 <= a < |at| => Adaptation(t[at[a]].category, TextOf(t[at[a]].content)))
  }

  /** Each row of the soul that is active, once, in whatever order. */
  ghost predicate AllActive(at: seq<nat>, t: AdaptationTable, soul: SoulId) {
    && (forall a, b :: 0 <= a < b < |at| ==> at[a] != at[b])
    && forall i: nat :: i in at <==> i < |t| && t[i].soul == soul && t[i].status.Current?
  }

  /** The block of rows whose categories passed the CHECK reads back, whatever their contents. */
  lemma StoredRowsReadBack(t: AdaptationTable, at: seq<nat>)
    requires forall a :: 0 <= a < |at| ==> at[a] < |t| && !t[at[a]].category.OtherCategory?
    ensures BlockHolds(Loaded(t, at))
  {
    var loaded := Loaded(t, at);
    forall a | 0 <= a < |at| ensures HeadingOk(CategoryLabel(loaded[a].category)) {
      StoredCategoriesAreOk(loaded[a].category);
    }
    EveryAdaptationOnce(loaded);
  }

  lemma {:induction false} GroupFromAdaptation(adaptations: seq<Adaptation>, i: nat)
    requires i < |Groups(adaptations)|
    ensures exists k :: 0 <= k < |adaptations| && adaptations[k].category == Groups(adaptations)[i].category
  {
    var c := Groups(adaptations)[i].category;
    assert HasGroup(Groups(adaptations), c);
    GroupUsed(adaptations, c);
  }

  lemma {:induction false} GroupUsed(adaptations: seq<Adaptation>, c: Category)
    requires HasGroup(Groups(adaptations), c)
    ensures exists k :: 0 <= k < |adaptations| && adaptations[k].category == c
  {
    if adaptations != [] {
      var n := |adaptations| - 1;
      AddToAdds(Groups(adaptations[..n]), adaptations[n], c);
      if adaptations[n].category != c {
        GroupUsed(adaptations[..n], c);
        var k :| 0 <= k < n && adaptations[..n][k].category == c;
        assert adaptations[k].category == c;
      }
    }
  }
}
