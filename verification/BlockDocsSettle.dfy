/**
 * The printer and the readers of the documentation generator undo each other: after a write the
 * check passes, a second write changes nothing, and hand-written text survives.
 */
module BlockDocsSettle {
  import opened Prelude
  import opened DocText
  import opened DocReaders
  import opened BlockDocs
  import opened BlockDocFiles

  // ---------------------------------------------------------------- well-formed inputs

  predicate NoHeading(l: string, bs: seq<BlockDoc>) {
    forall b <- bs :: !IsHeading(l, b.name)
  }

  predicate HasRule(t: Text) {
    exists l <- t :: IsRule(l)
  }

  predicate QuietText(t: Text) {
    forall l <- t :: Quiet(l)
  }

  predicate NoHeadings(t: Text, bs: seq<BlockDoc>) {
    forall l <- t :: NoHeading(l, bs)
  }

  /** No line of the text can end a block early or be taken for a block's heading. */
  predicate Harmless(t: Text, bs: seq<BlockDoc>) {
    !HasRule(t) && NoHeadings(t, bs)
  }

  /** The lines of the tables that come from the block's fields. */
  function Rows(b: BlockDoc): Text {
    InputRows(b.inputs) + OutputRows(b.outputs)
  }

  /** Nothing in what the block prints by itself opens a section or looks like a block's heading. */
  predicate PlainBlock(b: BlockDoc, bs: seq<BlockDoc>) {
    && '\n' !in b.name && Quiet("## " + b.name)
    && QuietText(DescriptionOf(b)) && NoHeadings(DescriptionOf(b), bs)
    && QuietText(Rows(b)) && NoHeadings(Rows(b), bs)
  }

  predicate PlainSections(m: map<string, Text>, bs: seq<BlockDoc>) {
    forall k <- {HOW_IT_WORKS, USE_CASE, EXTRAS} :: k in m ==> NoHeadings(m[k], bs)
  }

  /** Names are distinct also after trailing white space, so a heading names one block. */
  predicate DistinctNames(bs: seq<BlockDoc>) {
    forall i, j :: 0 <= i < |bs| && 0 <= j < |bs| && i != j ==> !IsHeading("## " + bs[i].name, bs[j].name)
  }

  /** No marker or block heading inside titles, descriptions, rows or hand-written text. */
  predicate PlainFile(existing: Text, title: string, bs: seq<BlockDoc>)
    requires existing != []
  {
    && title != "" && '\n' !in title && Quiet("# " + title)
    && DistinctNames(bs)
    && FileDescription(existing) != []
    && (forall l <- FileDescription(existing) :: !Contains(l, CLOSE) && NoHeading(l, bs))
    && (forall b <- bs :: PlainBlock(b, bs) && PlainSections(ManualOf(existing, b.name), bs))
  }

  // ---------------------------------------------------------------- fixed lines

  const HEADINGS: Text :=
    ["", "### What it is", "### How it works", "### Inputs", INPUT_COLUMNS, INPUT_LINE,
     "### Outputs", OUTPUT_COLUMNS, OUTPUT_LINE, "### Possible use case"]

  const MARKERS: Text := [Marker(HOW_IT_WORKS), Marker(USE_CASE), Marker(EXTRAS), CLOSE]

  predicate Ordinary(l: string) {
    forall c <- l :: c != '<' && c != '\r' && c != '\n'
  }

  lemma OrdinaryInputs()
    ensures Ordinary(INPUT_COLUMNS)
  {
  }

  lemma OrdinaryOutputs()
    ensures Ordinary(OUTPUT_COLUMNS)
  {
  }

  lemma OrdinaryLines()
    ensures Ordinary(INPUT_LINE) && Ordinary(OUTPUT_LINE)
  {
  }

  lemma OrdinaryHeadings()
    ensures Ordinary("### What it is") && Ordinary("### How it works") && Ordinary("### Possible use case")
    ensures Ordinary("### Inputs") && Ordinary("### Outputs")
  {
  }

  lemma HeadingsAreOrdinary()
    ensures forall l <- HEADINGS :: Ordinary(l)
  {
    OrdinaryInputs();
    OrdinaryOutputs();
    OrdinaryLines();
    OrdinaryHeadings();
    assert Ordinary("");
    hide Ordinary;
  }

  lemma OrdinaryIsQuiet(l: string)
    requires Ordinary(l)
    ensures Quiet(l) && IsLine(l) && !Contains(l, CLOSE)
  {
    QuietWithoutAngle(l, 0);
    NoClose(l);
  }

  lemma HeadingsAreQuiet()
    ensures QuietText(HEADINGS) && AreLines(HEADINGS)
  {
    HeadingsAreOrdinary();
    hide Quiet, Ordinary, IsLine;
    forall l | l in HEADINGS
      ensures Quiet(l) && IsLine(l)
    {
      OrdinaryIsQuiet(l);
    }
  }

  lemma FixedLines()
    ensures Quiet("") && Quiet(RULE) && Quiet(CLOSE)
  {
    CloseIsQuiet();
    QuietWithoutAngle("", 0);
    QuietWithoutAngle(RULE, 0);
  }

  lemma SectionNames()
    ensures IsName(HOW_IT_WORKS) && IsName(USE_CASE) && IsName(EXTRAS) && IsName(ADDITIONAL) && IsName(FILE_DESCRIPTION)
  {
  }

  /** A line is structural when it cannot be mistaken for a rule or for any block's heading. */
  predicate Structural(l: string) {
    || l == "" || l[0] == '|' || l[0] == '_' || l[0] == '<'
    || (|l| > 2 && l[0] == '#' && l[2] == '#')
    || (|l| > 1 && l[0] == '#' && l[1] == ' ')
  }

  predicate StructuralText(t: Text) {
    forall l <- t :: Structural(l)
  }

  lemma HeadingStart(l: string, name: string)
    ensures IsHeading(l, name) ==> |l| > 2 && l[0] == '#' && l[1] == '#' && l[2] == ' '
  {
    if IsHeading(l, name) {
      var h := l[0..3 + |name|];
      assert h[0] == '#' && h[1] == '#' && h[2] == ' ';
    }
  }

  lemma StructuralIsNeither(l: string, name: string)
    requires Structural(l)
    ensures !IsRule(l) && !IsHeading(l, name)
  {
    FirstCharacter(l, RULE);
    HeadingStart(l, name);
  }

  lemma StructuralIsHarmless(t: Text, bs: seq<BlockDoc>)
    requires StructuralText(t)
    ensures Harmless(t, bs)
  {
    forall l, b | l in t && b in bs
      ensures !IsHeading(l, b.name)
    {
      StructuralIsNeither(l, b.name);
    }
    forall l | l in t
      ensures !IsRule(l)
    {
      StructuralIsNeither(l, "");
    }
  }

  lemma FixedAreStructural()
    ensures StructuralText(HEADINGS) && StructuralText(MARKERS)
  {
    assert MARKERS[0][0] == '<' && MARKERS[1][0] == '<' && MARKERS[2][0] == '<' && MARKERS[3][0] == '<';
  }

  lemma FixedAreHarmless(bs: seq<BlockDoc>)
    ensures Harmless(HEADINGS, bs) && Harmless(MARKERS, bs)
  {
    FixedAreStructural();
    StructuralIsHarmless(HEADINGS, bs);
    StructuralIsHarmless(MARKERS, bs);
  }

  // ---------------------------------------------------------------- all lines of a printed block

  lemma OpeningAll(b: BlockDoc, p: string -> bool)
    requires forall l <- HEADINGS :: p(l)
    requires forall l <- DescriptionOf(b) :: p(l)
    ensures forall l <- Opening(b) :: p(l)
  {
    assert p(HEADINGS[0]) && p(HEADINGS[1]) && p(HEADINGS[2]);
  }

  lemma TableAll(heading: string, columns: string, line: string, rows: Text, p: string -> bool)
    requires p(heading) && p("") && p(columns) && p(line) && forall l <- rows :: p(l)
    ensures forall l <- Table(heading, columns, line, rows) :: p(l)
  {
  }

  lemma TablesAll(b: BlockDoc, p: string -> bool)
    requires forall l <- HEADINGS :: p(l)
    requires forall l <- Rows(b) :: p(l)
    ensures forall l <- Tables(b) :: p(l)
  {
    assert p(HEADINGS[0]) && p(HEADINGS[3]) && p(HEADINGS[4]) && p(HEADINGS[5]);
    assert p(HEADINGS[6]) && p(HEADINGS[7]) && p(HEADINGS[8]) && p(HEADINGS[9]);
    hide Table, InputRows, OutputRows;
    TableAll("### Inputs", INPUT_COLUMNS, INPUT_LINE, InputRows(b.inputs), p);
    TableAll("### Outputs", OUTPUT_COLUMNS, OUTPUT_LINE, OutputRows(b.outputs), p);
  }

  lemma SectionsAll(how: Text, use: Text, extras: Text, p: string -> bool)
    requires p("") && forall l <- MARKERS :: p(l)
    requires forall l <- how + use + extras :: p(l)
    ensures forall l <- SectionLines(HOW_IT_WORKS, how) + SectionLines(USE_CASE, use) :: p(l)
    ensures forall l <- OptionalSection(EXTRAS, extras) :: p(l)
  {
    assert p(MARKERS[0]) && p(MARKERS[1]) && p(MARKERS[2]) && p(MARKERS[3]);
    hide Marker;
    assert forall l <- SectionLines(HOW_IT_WORKS, how) :: p(l);
    assert forall l <- SectionLines(USE_CASE, use) :: p(l);
    assert forall l <- OptionalSection(EXTRAS, extras) :: p(l);
  }

  /** The three hand-written texts with which a block is printed. */
  function HandWritten(m: map<string, Text>): Text {
    GetOr(m, HOW_IT_WORKS, NO_EXPLANATION) + GetOr(m, USE_CASE, NO_USE_CASE) + GetOr(m, EXTRAS, EMPTY_TEXT)
  }

  /** What holds of the fixed lines, the description, the rows and the hand-written texts holds of every line. */
  lemma InnerAll(b: BlockDoc, m: map<string, Text>, p: string -> bool)
    requires forall l <- HEADINGS :: p(l)
    requires forall l <- MARKERS :: p(l)
    requires forall l <- DescriptionOf(b) + Rows(b) + HandWritten(m) :: p(l)
    ensures forall l <- Inner(b, m) :: p(l)
  {
    var how, use := GetOr(m, HOW_IT_WORKS, NO_EXPLANATION), GetOr(m, USE_CASE, NO_USE_CASE);
    var extras := GetOr(m, EXTRAS, EMPTY_TEXT);
    assert p(HEADINGS[0]);
    hide Opening, Tables, SectionLines, OptionalSection, GetOr, DescriptionOf, Rows;
    OpeningAll(b, p);
    TablesAll(b, p);
    SectionsAll(how, use, extras, p);
  }

  lemma HandWrittenHasNoHeading(m: map<string, Text>, bs: seq<BlockDoc>)
    requires PlainSections(m, bs)
    ensures NoHeadings(HandWritten(m), bs)
  {
    StructuralIsHarmless(NO_EXPLANATION, bs);
    StructuralIsHarmless(NO_USE_CASE, bs);
    StructuralIsHarmless(EMPTY_TEXT, bs);
  }

  lemma InnerHasNoHeading(b: BlockDoc, m: map<string, Text>, bs: seq<BlockDoc>)
    requires PlainBlock(b, bs) && PlainSections(m, bs)
    ensures NoHeadings(Inner(b, m), bs)
  {
    FixedAreHarmless(bs);
    HandWrittenHasNoHeading(m, bs);
    hide Inner, Rows, DescriptionOf, HandWritten, NoHeading, PlainSections, HEADINGS, MARKERS;
    InnerAll(b, m, l => NoHeading(l, bs));
  }

  lemma OpeningLines(b: BlockDoc)
    requires QuietText(DescriptionOf(b)) && QuietText(Rows(b))
    ensures QuietText(Opening(b)) && QuietText(Tables(b))
    ensures Opening(b)[0] == "### What it is" && !Blank(Opening(b)[0]) && !IsRule(Opening(b)[0])
  {
    HeadingsAreQuiet();
    FixedAreHarmless([]);
    assert Opening(b)[0] == "### What it is" == HEADINGS[1];
    assert Opening(b)[0][0] == '#' && Opening(b)[0][0] in Opening(b)[0] && !IsSpace('#');
    hide Opening, Tables, Rows, DescriptionOf, Quiet, IsRule, HEADINGS;
    OpeningAll(b, l => Quiet(l));
    TablesAll(b, l => Quiet(l));
  }

  /** The fixed lines hold no rules. */
  lemma OpeningRules(b: BlockDoc)
    ensures HasRule(Opening(b)) <==> HasRule(DescriptionOf(b))
    ensures HasRule(Tables(b)) <==> HasRule(Rows(b))
  {
    FixedAreHarmless([]);
    assert forall l <- DescriptionOf(b) :: l in Opening(b);
    assert forall l <- InputRows(b.inputs) :: l in InputTable(b);
    assert forall l <- OutputRows(b.outputs) :: l in OutputTable(b);
    assert forall l <- Rows(b) :: l in Tables(b);
    hide Opening, Tables, Rows, DescriptionOf, IsRule, HEADINGS;
    if !HasRule(DescriptionOf(b)) {
      OpeningAll(b, l => !IsRule(l));
    }
    if !HasRule(Rows(b)) {
      TablesAll(b, l => !IsRule(l));
    }
  }

  /** The hand-written texts that a block is printed with. */
  predicate CleanSections(m: map<string, Text>) {
    forall k <- {HOW_IT_WORKS, USE_CASE, EXTRAS} :: k in m ==> Clean(m[k])
  }

  lemma ExplanationIsOrdinary()
    ensures Ordinary(NO_EXPLANATION[0])
  {
  }

  lemma UseCaseIsOrdinary()
    ensures Ordinary(NO_USE_CASE[0])
  {
  }

  lemma FileDescriptionIsOrdinary()
    ensures Ordinary(NO_FILE_DESCRIPTION[0])
  {
    OrdinaryStart();
    OrdinaryEnd();
    OrdinaryMore("_Add a description of ", "this category of blocks._");
    hide Ordinary;
  }

  lemma OrdinaryStart()
    ensures Ordinary("_Add a description of ")
  {
  }

  lemma OrdinaryEnd()
    ensures Ordinary("this category of blocks._")
  {
  }

  lemma OrdinaryMore(a: string, b: string)
    requires Ordinary(a) && Ordinary(b)
    ensures Ordinary(a + b)
  {
  }

  lemma MarkerIsLine(name: string)
    requires IsName(name)
    ensures IsLine(Marker(name))
  {
    OpenIsLine();
    hide OPEN;
  }

  lemma OpenIsLine()
    ensures IsLine(OPEN)
  {
  }

  lemma DescriptionIsOrdinary()
    ensures Ordinary(NO_DESCRIPTION[0])
  {
  }

  lemma DefaultsAreClean()
    ensures Clean(NO_EXPLANATION) && Clean(NO_USE_CASE) && Clean(EMPTY_TEXT)
  {
    NoClose("");
    ExplanationIsOrdinary();
    UseCaseIsOrdinary();
    hide Ordinary;
    PlaceholderIsClean(NO_EXPLANATION);
    PlaceholderIsClean(NO_USE_CASE);
  }

  lemma PlaceholderIsClean(t: Text)
    requires |t| == 1 && Ordinary(t[0])
    requires t[0] != "" && t[0][0] == '_' == t[0][|t[0]| - 1]
    ensures Clean(t)
  {
    OrdinaryIsQuiet(t[0]);
    assert !IsSpace('_');
  }

  lemma NoClose(l: string)
    requires '<' !in l
    ensures !Contains(l, CLOSE)
  {
    FirstCharacter(l, CLOSE);
  }

  lemma TakeSection(name: string, body: Text, rest: Text)
    requires IsName(name) && Clean(body)
    ensures Sections(SectionLines(name, body) + rest) == [(name, body)] + Sections(rest)
  {
    SectionsTake(name, body, rest);
    StripFixed(body);
  }

  function OptionalEntry(name: string, body: Text): seq<Section> {
    if body == EMPTY_TEXT then [] else [(name, body)]
  }

  lemma TakeOptional(name: string, body: Text, rest: Text)
    requires IsName(name) && Clean(body)
    ensures Sections(OptionalSection(name, body) + rest) == OptionalEntry(name, body) + Sections(rest)
  {
    if body == EMPTY_TEXT {
      assert [] + rest == rest;
    } else {
      Grouped(SectionLines(name, body), [""], rest);
      TakeSection(name, body, [""] + rest);
      FixedLines();
      SectionsSkip([""], rest);
    }
  }

  /** What is read back from a printed block. */
  function Printed(m: map<string, Text>): seq<Section> {
    [(HOW_IT_WORKS, GetOr(m, HOW_IT_WORKS, NO_EXPLANATION)), (USE_CASE, GetOr(m, USE_CASE, NO_USE_CASE))]
    + OptionalEntry(EXTRAS, GetOr(m, EXTRAS, EMPTY_TEXT))
  }

  lemma InnerGrouped(a: Text, b: Text, c: Text, d: Text, e: Text, f: Text, rest: Text)
    ensures a + b + c + d + e + f + rest == a + (b + (c + (d + (e + (f + rest)))))
  {
  }

  lemma QuietThen(quiet: Text, name: string, body: Text, rest: Text)
    requires QuietText(quiet) && IsName(name) && Clean(body)
    ensures Sections(quiet + (SectionLines(name, body) + rest)) == [(name, body)] + Sections(rest)
  {
    SectionsSkip(quiet, SectionLines(name, body) + rest);
    TakeSection(name, body, rest);
  }

  lemma PartSections(a: Text, how: Text, t: Text, use: Text, extras: Text, rest: Text)
    requires QuietText(a) && QuietText(t) && Clean(how) && Clean(use) && Clean(extras)
    ensures var after := SectionLines(USE_CASE, use) + ([""] + (OptionalSection(EXTRAS, extras) + rest));
            Sections(a + (SectionLines(HOW_IT_WORKS, how) + (t + after)))
            == [(HOW_IT_WORKS, how), (USE_CASE, use)] + OptionalEntry(EXTRAS, extras) + Sections(rest)
  {
    SectionNames();
    FixedLines();
    hide Clean, Quiet, SectionLines, OptionalSection, IsName, Sections;
    var r5 := OptionalSection(EXTRAS, extras) + rest;
    var r3 := SectionLines(USE_CASE, use) + ([""] + r5);
    QuietThen(a, HOW_IT_WORKS, how, t + r3);
    QuietThen(t, USE_CASE, use, [""] + r5);
    SectionsSkip([""], r5);
    TakeOptional(EXTRAS, extras, rest);
  }

  lemma InnerSections(b: BlockDoc, m: map<string, Text>, bs: seq<BlockDoc>, rest: Text)
    requires PlainBlock(b, bs) && CleanSections(m)
    ensures Sections(Inner(b, m) + rest) == Printed(m) + Sections(rest)
  {
    var how, use := GetOr(m, HOW_IT_WORKS, NO_EXPLANATION), GetOr(m, USE_CASE, NO_USE_CASE);
    var extras := GetOr(m, EXTRAS, EMPTY_TEXT);
    assert Clean(how) && Clean(use) && Clean(extras) by {
      DefaultsAreClean();
    }
    OpeningLines(b);
    hide Clean, QuietText, Opening, Tables, SectionLines, OptionalSection, GetOr, Sections, OptionalEntry;
    InnerGrouped(Opening(b), SectionLines(HOW_IT_WORKS, how), Tables(b), SectionLines(USE_CASE, use), [""],
                 OptionalSection(EXTRAS, extras), rest);
    PartSections(Opening(b), how, Tables(b), use, extras, rest);
  }

  // ---------------------------------------------------------------- what survives in a block

  lemma ManualOfIsClean(existing: Text, name: string)
    ensures CleanSections(ManualOf(existing, name))
  {
    match BlockPart(existing, name)
    case Some(part) => ManualIsClean(part);
    case None =>
  }

  lemma DifferentNames()
    ensures HOW_IT_WORKS != USE_CASE && HOW_IT_WORKS != EXTRAS && USE_CASE != EXTRAS
    ensures ADDITIONAL !in {HOW_IT_WORKS, USE_CASE, EXTRAS, FILE_DESCRIPTION}
  {
    assert HOW_IT_WORKS[0] == 'h' && USE_CASE[0] == 'u' && EXTRAS[0] == 'e' && ADDITIONAL[0] == 'a'
           && FILE_DESCRIPTION[0] == 'f';
  }

  // ---------------------------------------------------------------- a whole file

  lemma OtherHeading(b: BlockDoc, m: map<string, Text>, bs: seq<BlockDoc>, c: BlockDoc)
    requires PlainBlock(b, bs) && PlainSections(m, bs) && c in bs
    requires !IsHeading("## " + b.name, c.name)
    ensures forall l <- BlockText(b, m) :: !IsHeading(l, c.name)
  {
    InnerHasNoHeading(b, m, bs);
    StructuralIsNeither("", c.name);
    HeadingStart(RULE, c.name);
    hide Inner, IsHeading;
    assert forall l <- Inner(b, m) :: NoHeading(l, bs);
  }

  lemma LastText(e: Text, bs: seq<BlockDoc>)
    requires bs != []
    ensures var n := |bs| - 1;
            BlockTexts(e, bs) == BlockTexts(e, bs[..n]) + BlockText(bs[n], ManualOf(e, bs[n].name))
  {
    hide BlockText, ManualOf;
  }

  lemma DistinctBefore(bs: seq<BlockDoc>)
    requires bs != [] && DistinctNames(bs)
    ensures var n := |bs| - 1;
            DistinctNames(bs[..n]) && forall c <- bs[..n] :: !IsHeading("## " + c.name, bs[n].name)
  {
    hide IsHeading;
    var n := |bs| - 1;
    assert forall c <- bs[..n] :: exists i :: 0 <= i < n && bs[i] == c;
  }

  lemma NotTheHeading(t: Text, all: seq<BlockDoc>, b: BlockDoc)
    requires NoHeadings(t, all) && b in all
    ensures forall l <- t :: !IsHeading(l, b.name)
  {
    hide IsHeading;
  }

  /** In a run of printed blocks no line before a block is its heading. */
  lemma {:induction false} BlockPlace(e: Text, bs: seq<BlockDoc>, k: nat, all: seq<BlockDoc>, pre: Text, post: Text)
    returns (before: Text, after: Text)
    requires k < |bs| && DistinctNames(bs) && forall b <- bs :: b in all
    requires forall b <- bs :: PlainBlock(b, all) && PlainSections(ManualOf(e, b.name), all)
    requires NoHeadings(pre, all)
    ensures pre + BlockTexts(e, bs) + post == before + BlockText(bs[k], ManualOf(e, bs[k].name)) + after
    ensures forall l <- before :: !IsHeading(l, bs[k].name)
  {
    hide *;
    var n := |bs| - 1;
    var text, earlier := BlockText(bs[n], ManualOf(e, bs[n].name)), BlockTexts(e, bs[..n]);
    assert forall c <- bs[..n] :: c in bs;
    LastText(e, bs);
    DistinctBefore(bs);
    if k == n {
      before, after := pre + earlier, post;
      NotTheHeading(pre, all, bs[n]);
      forall l | l in earlier
        ensures !IsHeading(l, bs[n].name)
      {
        NoEarlierHeading(e, bs[..n], all, bs[n], l);
      }
      Grouped(pre, earlier, text);
    } else {
      before, after := BlockPlace(e, bs[..n], k, all, pre, text + post);
      Regrouped(pre, earlier, text, post);
    }
  }

  lemma Regrouped(a: Text, b: Text, c: Text, d: Text)
    ensures a + (b + c) + d == a + b + (c + d)
  {
  }

  lemma {:induction false} NoEarlierHeading(e: Text, bs: seq<BlockDoc>, all: seq<BlockDoc>, c: BlockDoc, l: string)
    requires forall b <- bs :: b in all && !IsHeading("## " + b.name, c.name)
    requires c in all && forall b <- bs :: PlainBlock(b, all) && PlainSections(ManualOf(e, b.name), all)
    requires l in BlockTexts(e, bs)
    ensures !IsHeading(l, c.name)
  {
    var n := |bs| - 1;
    if l in BlockTexts(e, bs[..n]) {
      assert forall b <- bs[..n] :: b in bs;
      NoEarlierHeading(e, bs[..n], all, c, l);
    } else {
      assert bs[n] in bs;
      OtherHeading(bs[n], ManualOf(e, bs[n].name), all, c);
    }
  }

  /** The sections of a run of printed blocks. */
  function PrintedAll(e: Text, bs: seq<BlockDoc>): seq<Section> {
    if bs == [] then [] else PrintedAll(e, bs[..|bs| - 1]) + Printed(ManualOf(e, bs[|bs| - 1].name))
  }

  lemma {:induction false} BlocksSections(e: Text, bs: seq<BlockDoc>, all: seq<BlockDoc>, rest: Text)
    requires forall b <- bs :: PlainBlock(b, all)
    ensures Sections(BlockTexts(e, bs) + rest) == PrintedAll(e, bs) + Sections(rest)
  {
    hide PlainBlock, Sections, ManualOf, BlockText, Printed;
    if bs == [] {
      assert BlockTexts(e, bs) + rest == rest;
    } else {
      var n := |bs| - 1;
      var b, m := bs[n], ManualOf(e, bs[n].name);
      assert bs[n] in bs && forall c <- bs[..n] :: c in bs;
      BlocksSections(e, bs[..n], all, BlockText(b, m) + rest);
      Grouped(BlockTexts(e, bs[..n]), BlockText(b, m), rest);
      ManualOfIsClean(e, b.name);
      BlockSections(b, m, all, rest);
    }
  }

  lemma BlockSections(b: BlockDoc, m: map<string, Text>, all: seq<BlockDoc>, rest: Text)
    requires PlainBlock(b, all) && CleanSections(m)
    ensures Sections(BlockText(b, m) + rest) == Printed(m) + Sections(rest)
  {
    FixedLines();
    assert Quiet("## " + b.name);
    hide Inner, Sections, Printed, Quiet, BlockText, PlainBlock, CleanSections;
    var tail := [RULE, ""] + rest;
    BlockInParts(b, m, rest);
    SectionsSkip(["## " + b.name, ""], Inner(b, m) + tail);
    InnerSections(b, m, all, tail);
    SectionsSkip([RULE, ""], rest);
  }

  lemma BlockInParts(b: BlockDoc, m: map<string, Text>, rest: Text)
    ensures BlockText(b, m) + rest == ["## " + b.name, ""] + (Inner(b, m) + ([RULE, ""] + rest))
  {
    hide Inner;
  }

  // ---------------------------------------------------------------- order of the blocks

  lemma {:induction false} InsertKeeps(b: BlockDoc, bs: seq<BlockDoc>)
    ensures multiset(InsertByName(b, bs)) == multiset(bs) + multiset{b}
  {
    if bs == [] || NameLess(b.name, bs[0].name) {
    } else {
      InsertKeeps(b, bs[1..]);
      assert bs == [bs[0]] + bs[1..];
    }
  }

  /** Sorting loses and repeats no block. */
  lemma {:induction false} SortKeeps(bs: seq<BlockDoc>)
    ensures multiset(SortByName(bs)) == multiset(bs)
  {
    if bs == [] {
    } else {
      var n := |bs| - 1;
      SortKeeps(bs[..n]);
      InsertKeeps(bs[n], SortByName(bs[..n]));
      assert bs == bs[..n] + [bs[n]];
    }
  }

  lemma TwiceIsTwo(bs: seq<BlockDoc>, i: nat, j: nat)
    requires i < j < |bs| && bs[i] == bs[j]
    ensures multiset(bs)[bs[i]] >= 2
  {
    assert bs == bs[..j] + [bs[j]] + bs[j + 1..];
    assert bs[..j][i] == bs[i];
    assert bs[i] in bs[..j];
    assert multiset(bs[..j])[bs[i]] >= 1;
  }

  lemma {:induction false} OnceIsOne(bs: seq<BlockDoc>, b: BlockDoc)
    requires forall i, j :: 0 <= i < j < |bs| ==> bs[i] != bs[j]
    ensures multiset(bs)[b] <= 1
  {
    if bs == [] {
    } else {
      var n := |bs| - 1;
      OnceIsOne(bs[..n], b);
      assert bs == bs[..n] + [bs[n]];
      if b == bs[n] {
        assert b !in bs[..n];
        assert multiset(bs[..n])[b] == 0;
      }
    }
  }

  lemma SortedMembers(bs: seq<BlockDoc>)
    ensures forall b :: b in SortByName(bs) <==> b in bs
  {
    SortKeeps(bs);
    assert forall b :: b in SortByName(bs) <==> b in multiset(SortByName(bs));
    assert forall b :: b in bs <==> b in multiset(bs);
  }

  lemma NoDuplicates(bs: seq<BlockDoc>)
    requires DistinctNames(bs)
    ensures forall i, j :: 0 <= i < j < |bs| ==> bs[i] != bs[j]
  {
    hide IsHeading;
    forall i, j | 0 <= i < j < |bs|
      ensures bs[i] != bs[j]
    {
      OwnHeading(bs[i].name);
    }
  }

  lemma SortedDiffer(bs: seq<BlockDoc>, i: nat, j: nat)
    requires DistinctNames(bs) && i < j < |SortByName(bs)|
    ensures SortByName(bs)[i] != SortByName(bs)[j]
  {
    var s := SortByName(bs);
    SortKeeps(bs);
    hide SortByName, IsHeading;
    if s[i] == s[j] {
      NoDuplicates(bs);
      OnceIsOne(bs, s[i]);
      TwiceIsTwo(s, i, j);
    }
  }

  lemma SortedIsDistinct(bs: seq<BlockDoc>)
    requires DistinctNames(bs)
    ensures DistinctNames(SortByName(bs))
  {
    hide SortByName, IsHeading;
    var s := SortByName(bs);
    SortedMembers(bs);
    forall i, j | 0 <= i < |s| && 0 <= j < |s| && i != j
      ensures !IsHeading("## " + s[i].name, s[j].name)
    {
      SortedDiffer(bs, if i < j then i else j, if i < j then j else i);
      assert s[i] in s && s[j] in s;
      var x :| 0 <= x < |bs| && bs[x] == s[i];
      var y :| 0 <= y < |bs| && bs[y] == s[j];
    }
  }

  lemma OwnHeading(name: string)
    ensures IsHeading("## " + name, name)
  {
    var h := "## " + name;
    assert h[0..|h|] == h && h[|h|..] == "";
  }

  // ---------------------------------------------------------------- a written file read back

  function BodyOf(existing: Text, bs: seq<BlockDoc>): Text {
    BlockTexts(existing, SortByName(bs)) + OptionalSection(ADDITIONAL, AdditionalOf(existing))
  }

  lemma FileGrouped(e: Text, title: string, bs: seq<BlockDoc>)
    requires e != []
    ensures FileContent(e, title, bs)
         == ["# " + title, Marker(FILE_DESCRIPTION)] + FileDescription(e) + [CLOSE] + ([""] + BodyOf(e, bs))
    ensures FileContent(e, title, bs)
         == ["# " + title] + (SectionLines(FILE_DESCRIPTION, FileDescription(e)) + ([""] + BodyOf(e, bs)))
    ensures FileContent(e, title, bs)
         == Header(title, FileDescription(e)) + BlockTexts(e, SortByName(bs))
            + OptionalSection(ADDITIONAL, AdditionalOf(e))
  {
    hide FileDescription, AdditionalOf, BlockTexts, SortByName, OptionalSection;
  }

  lemma DescriptionIsKept(e: Text, title: string, bs: seq<BlockDoc>)
    requires e != [] && PlainFile(e, title, bs)
    ensures HeaderDescription(FileContent(e, title, bs)) == Some(FileDescription(e))
    ensures HeaderDescription(e).Some? ==> HeaderDescription(FileContent(e, title, bs)) == HeaderDescription(e)
    ensures HeaderDescription(e).None? ==> HeaderDescription(FileContent(e, title, bs)) == Some(NO_FILE_DESCRIPTION)
  {
    FileGrouped(e, title, bs);
    HeaderIsFound(title, FileDescription(e), [""] + BodyOf(e, bs));
  }

  lemma HeaderHarmless(title: string, description: Text, bs: seq<BlockDoc>)
    requires forall l <- description :: NoHeading(l, bs)
    ensures forall l <- Header(title, description) :: NoHeading(l, bs)
  {
    assert Marker(FILE_DESCRIPTION)[0] == '<' && CLOSE[0] == '<';
    StructuralIsHarmless(["# " + title, Marker(FILE_DESCRIPTION)], bs);
    StructuralIsHarmless([CLOSE, ""], bs);
  }

  /** Where a block is in the file. */
  lemma FilePlace(e: Text, title: string, bs: seq<BlockDoc>, b: BlockDoc) returns (before: Text, after: Text)
    requires e != [] && PlainFile(e, title, bs) && b in bs
    ensures FileContent(e, title, bs) == before + BlockText(b, ManualOf(e, b.name)) + after
    ensures forall l <- before :: !IsHeading(l, b.name)
  {
    var sorted := SortByName(bs);
    SortedIsDistinct(bs);
    SortedMembers(bs);
    FileGrouped(e, title, bs);
    HeaderHarmless(title, FileDescription(e), bs);
    hide FileContent, SortByName, ManualOf, NoHeading, BlockText, BlockTexts, PlainBlock, PlainSections, Header,
         DistinctNames, FileDescription;
    var k :| 0 <= k < |sorted| && sorted[k] == b;
    before, after := BlockPlace(e, sorted, k, bs, Header(title, FileDescription(e)),
                                OptionalSection(ADDITIONAL, AdditionalOf(e)));
  }

  lemma HeaderSections(title: string, description: Text, rest: Text)
    requires Quiet("# " + title) && description != [] && forall l <- description :: !Contains(l, CLOSE)
    ensures Sections(["# " + title] + (SectionLines(FILE_DESCRIPTION, description) + ([""] + rest)))
         == [(FILE_DESCRIPTION, Strip([""] + description + [""]))] + Sections(rest)
  {
    SectionNames();
    FixedLines();
    hide Sections, IsName, Quiet;
    SectionsSkip(["# " + title], SectionLines(FILE_DESCRIPTION, description) + ([""] + rest));
    SectionsTake(FILE_DESCRIPTION, description, [""] + rest);
    SectionsSkip([""], rest);
  }

  lemma BodySections(e: Text, bs: seq<BlockDoc>)
    requires forall b <- bs :: PlainBlock(b, bs)
    ensures Sections(BodyOf(e, bs)) == PrintedAll(e, SortByName(bs)) + OptionalEntry(ADDITIONAL, AdditionalOf(e))
  {
    var more := AdditionalOf(e);
    assert Clean(more) by {
      DefaultsAreClean();
      ManualIsClean(e);
    }
    SortedMembers(bs);
    hide PlainBlock, SortByName, BlockTexts, Clean, Sections, AdditionalOf, OptionalEntry, PrintedAll;
    BlocksSections(e, SortByName(bs), bs, OptionalSection(ADDITIONAL, more));
    OnlyOptional(more);
  }

  lemma FileSections(e: Text, title: string, bs: seq<BlockDoc>)
    requires e != [] && PlainFile(e, title, bs)
    ensures Sections(FileContent(e, title, bs))
         == [(FILE_DESCRIPTION, Strip([""] + FileDescription(e) + [""]))]
            + PrintedAll(e, SortByName(bs)) + OptionalEntry(ADDITIONAL, AdditionalOf(e))
  {
    FileGrouped(e, title, bs);
    BodySections(e, bs);
    HeaderSections(title, FileDescription(e), BodyOf(e, bs));
    hide Sections, PrintedAll, OptionalEntry, AdditionalOf, FileContent, BodyOf, SectionLines, SortByName,
         FileDescription;
    Grouped([(FILE_DESCRIPTION, Strip([""] + FileDescription(e) + [""]))], PrintedAll(e, SortByName(bs)),
            OptionalEntry(ADDITIONAL, AdditionalOf(e)));
  }

  lemma OnlyOptional(more: Text)
    requires Clean(more)
    ensures Sections(OptionalSection(ADDITIONAL, more)) == OptionalEntry(ADDITIONAL, more)
  {
    SectionNames();
    TakeOptional(ADDITIONAL, more, []);
    assert OptionalSection(ADDITIONAL, more) + [] == OptionalSection(ADDITIONAL, more);
    assert OptionalEntry(ADDITIONAL, more) + Sections([]) == OptionalEntry(ADDITIONAL, more);
  }

  lemma {:induction false} NotAmong(s: seq<Section>, key: string)
    requires forall x <- s :: x.0 != key
    ensures key !in ToMap(s)
  {
    if s == [] {
    } else {
      NotAmong(s[..|s| - 1], key);
    }
  }

  lemma {:induction false} PrintedNames(e: Text, bs: seq<BlockDoc>)
    ensures forall x <- PrintedAll(e, bs) :: x.0 in {HOW_IT_WORKS, USE_CASE, EXTRAS}
  {
    if bs == [] {
    } else {
      PrintedNames(e, bs[..|bs| - 1]);
    }
  }

  lemma AdditionalIsKept(e: Text, title: string, bs: seq<BlockDoc>)
    requires e != [] && PlainFile(e, title, bs)
    ensures GetOr(ManualContent(FileContent(e, title, bs)), ADDITIONAL, EMPTY_TEXT)
         == GetOr(ManualContent(e), ADDITIONAL, EMPTY_TEXT)
  {
    FileSections(e, title, bs);
    hide FileContent, PlainFile, SortByName, Sections, Strip, FileDescription;
    var more, d := AdditionalOf(e), Strip([""] + FileDescription(e) + [""]);
    LastEntry([(FILE_DESCRIPTION, d)] + PrintedAll(e, SortByName(bs)), more) by {
      DifferentNames();
      PrintedNames(e, SortByName(bs));
    }
  }

  lemma LastEntry(s: seq<Section>, more: Text)
    requires forall x <- s :: x.0 != ADDITIONAL
    ensures GetOr(ToMap(s + OptionalEntry(ADDITIONAL, more)), ADDITIONAL, EMPTY_TEXT) == more
  {
    NotAmong(s, ADDITIONAL);
    if more == EMPTY_TEXT {
      assert s + [] == s;
    } else {
      assert (s + [(ADDITIONAL, more)])[..|s|] == s;
    }
  }

  // ---------------------------------------------------------------- a block read back

  function UpToRule(t: Text): (n: nat)
    requires HasRule(t)
    ensures n < |t| && IsRule(t[n]) && forall l <- t[..n] :: !IsRule(l)
  {
    if IsRule(t[0]) then 0
    else
      assert t == [t[0]] + t[1..];
      var n := UpToRule(t[1..]);
      assert t[..n + 1] == [t[0]] + t[1..][..n];
      n + 1
  }

  lemma {:induction false} UntilFirstRule(t: Text, rest: Text)
    requires HasRule(t)
    ensures UntilRule(t + rest) == UntilRule(t) && UntilRule(t) <= t
  {
    assert t == [t[0]] + t[1..];
    if IsRule(t[0]) {
    } else {
      assert (t + rest)[1..] == t[1..] + rest;
      UntilFirstRule(t[1..], rest);
    }
  }

  lemma NothingAfterRule(t: Text, rest: Text)
    requires QuietText(t) && HasRule(t)
    ensures Sections(UntilRule(t + rest)) == []
  {
    UntilFirstRule(t, rest);
    var u := UntilRule(t);
    assert u + [] == u;
    SectionsSkip(u, []);
  }

  lemma CutInside(quiet: Text, name: string, body: Text, rest: Text)
    requires QuietText(quiet) && IsName(name) && Clean(body) && HasRule(body)
    ensures Sections(quiet + UntilRule(SectionLines(name, body) + rest)) == []
  {
    FirstCharacter(Marker(name), RULE);
    var n := UpToRule(body);
    var start := [Marker(name)] + body[..n];
    assert SectionLines(name, body) + rest == start + (body[n..] + [CLOSE] + rest);
    UntilRuleAfter(start, body[n..] + [CLOSE] + rest);
    assert UntilRule(body[n..] + [CLOSE] + rest) == [];
    assert start + [] == start;
    SectionsSkip(quiet, start);
    UnclosedIsLost(name, body[..n]);
  }

  /** A section is read up to the first rule: it is lost if a rule is in it or before it. */
  lemma CutSection(quiet: Text, name: string, body: Text, rest: Text)
    requires QuietText(quiet) && IsName(name) && Clean(body)
    ensures Sections(UntilRule(quiet + (SectionLines(name, body) + rest)))
         == if HasRule(quiet) || HasRule(body) then [] else [(name, body)] + Sections(UntilRule(rest))
  {
    FirstCharacter(Marker(name), RULE);
    FirstCharacter(CLOSE, RULE);
    assert !HasRule(body) ==> !HasRule(SectionLines(name, body));
    hide SectionLines, Sections, Clean, IsRule, Quiet, IsName, Marker, CLOSE, RULE;
    if HasRule(quiet) {
      NothingAfterRule(quiet, SectionLines(name, body) + rest);
    } else {
      UntilRuleAfter(quiet, SectionLines(name, body) + rest);
      if HasRule(body) {
        CutInside(quiet, name, body, rest);
      } else {
        UntilRuleAfter(SectionLines(name, body), rest);
        QuietThen(quiet, name, body, UntilRule(rest));
      }
    }
  }

  predicate HowSurvives(b: BlockDoc, m: map<string, Text>) {
    !HasRule(DescriptionOf(b)) && !HasRule(GetOr(m, HOW_IT_WORKS, NO_EXPLANATION))
  }

  predicate UseSurvives(b: BlockDoc, m: map<string, Text>) {
    HowSurvives(b, m) && !HasRule(Rows(b)) && !HasRule(GetOr(m, USE_CASE, NO_USE_CASE))
  }

  predicate ExtrasSurvive(b: BlockDoc, m: map<string, Text>) {
    && UseSurvives(b, m)
    && GetOr(m, EXTRAS, EMPTY_TEXT) != EMPTY_TEXT && !HasRule(GetOr(m, EXTRAS, EMPTY_TEXT))
  }

  /** The sections before the block's first rule. */
  function Survivors(b: BlockDoc, m: map<string, Text>): seq<Section> {
    if !HowSurvives(b, m) then []
    else
      [(HOW_IT_WORKS, GetOr(m, HOW_IT_WORKS, NO_EXPLANATION))]
      + if !UseSurvives(b, m) then []
        else
          [(USE_CASE, GetOr(m, USE_CASE, NO_USE_CASE))]
          + if ExtrasSurvive(b, m) then [(EXTRAS, GetOr(m, EXTRAS, EMPTY_TEXT))] else []
  }

  lemma EndOfBlock(extras: Text)
    requires Clean(extras)
    ensures Sections(UntilRule([""] + (OptionalSection(EXTRAS, extras) + [RULE])))
         == if extras == EMPTY_TEXT || HasRule(extras) then [] else [(EXTRAS, extras)]
  {
    FixedLines();
    SectionNames();
    assert RULE[0..3] == RULE && !IsRule("");
    assert UntilRule([RULE]) == [] && UntilRule([""] + [RULE]) == [""];
    SectionsSkip([""], []);
    assert [""] + [] == [""];
    if extras == EMPTY_TEXT {
      assert [] + [RULE] == [RULE];
    } else {
      Grouped(SectionLines(EXTRAS, extras), [""], [RULE]);
      CutSection([""], EXTRAS, extras, [""] + [RULE]);
      hide Sections, UntilRule, SectionLines, IsRule;
      assert [(EXTRAS, extras)] + [] == [(EXTRAS, extras)];
    }
  }

  /** What is read of a block's text: its sections before its first rule. */
  lemma InnerIsRead(b: BlockDoc, m: map<string, Text>)
    requires QuietText(DescriptionOf(b)) && QuietText(Rows(b)) && CleanSections(m)
    ensures Sections(UntilRule(Inner(b, m) + [RULE])) == Survivors(b, m)
  {
    var how, use := GetOr(m, HOW_IT_WORKS, NO_EXPLANATION), GetOr(m, USE_CASE, NO_USE_CASE);
    var extras := GetOr(m, EXTRAS, EMPTY_TEXT);
    assert Clean(how) && Clean(use) && Clean(extras) by {
      DefaultsAreClean();
    }
    OpeningLines(b);
    OpeningRules(b);
    SectionNames();
    hide Clean, QuietText, Opening, Tables, SectionLines, OptionalSection, GetOr, Sections, UntilRule, HasRule, Rows,
         DescriptionOf, IsName, CleanSections;
    InnerGrouped(Opening(b), SectionLines(HOW_IT_WORKS, how), Tables(b), SectionLines(USE_CASE, use), [""],
                 OptionalSection(EXTRAS, extras), [RULE]);
    var r := [""] + (OptionalSection(EXTRAS, extras) + [RULE]);
    CutSection(Opening(b), HOW_IT_WORKS, how, Tables(b) + (SectionLines(USE_CASE, use) + r));
    CutSection(Tables(b), USE_CASE, use, r);
    EndOfBlock(extras);
  }

  lemma AroundInner(pre: Text, h: Text, inner: Text, post: Text)
    ensures pre + (h + inner + [RULE, ""]) + post == pre + (h + ((inner + [RULE]) + ([""] + post)))
  {
  }

  /** A printed block is found by its name: all it printed up to its first rule, and nothing of its neighbours. */
  lemma PartIsRead(pre: Text, b: BlockDoc, m: map<string, Text>, post: Text)
    requires QuietText(DescriptionOf(b)) && QuietText(Rows(b)) && forall l <- pre :: !IsHeading(l, b.name)
    ensures BlockPart(pre + BlockText(b, m) + post, b.name) == Some(UntilRule(Inner(b, m) + [RULE]))
  {
    OpeningLines(b);
    assert Inner(b, m)[0] == Opening(b)[0];
    assert IsRule(RULE) by {
      assert RULE[0..3] == RULE;
    }
    assert HasRule(Inner(b, m) + [RULE]) by {
      assert RULE in Inner(b, m) + [RULE];
    }
    hide Inner, IsHeading, IsRule, HasRule, Blank, Opening, BlockPart, UntilRule, Quiet, DescriptionOf, Rows;
    AroundInner(pre, ["## " + b.name, ""], Inner(b, m), post);
    PartStartsAt(pre, b.name, (Inner(b, m) + [RULE]) + ([""] + post));
    UntilFirstRule(Inner(b, m) + [RULE], [""] + post);
  }

  lemma KeysOfSurvivors(b: BlockDoc, m: map<string, Text>)
    ensures var r := ToMap(Survivors(b, m));
            && (HOW_IT_WORKS in r <==> HowSurvives(b, m)) && (USE_CASE in r <==> UseSurvives(b, m))
            && (EXTRAS in r <==> ExtrasSurvive(b, m))
            && (HOW_IT_WORKS in r ==> r[HOW_IT_WORKS] == GetOr(m, HOW_IT_WORKS, NO_EXPLANATION))
            && (USE_CASE in r ==> r[USE_CASE] == GetOr(m, USE_CASE, NO_USE_CASE))
            && (EXTRAS in r ==> r[EXTRAS] == GetOr(m, EXTRAS, EMPTY_TEXT))
            && r.Keys <= {HOW_IT_WORKS, USE_CASE, EXTRAS}
  {
    DifferentNames();
    hide HasRule, DescriptionOf, Rows, GetOr;
    var how, use := GetOr(m, HOW_IT_WORKS, NO_EXPLANATION), GetOr(m, USE_CASE, NO_USE_CASE);
    var extras := GetOr(m, EXTRAS, EMPTY_TEXT);
    MapOfThree(how, use, extras);
    assert [(HOW_IT_WORKS, how)] + [] == [(HOW_IT_WORKS, how)];
    assert [(HOW_IT_WORKS, how)] + ([(USE_CASE, use)] + []) == [(HOW_IT_WORKS, how), (USE_CASE, use)];
    assert [(HOW_IT_WORKS, how)] + ([(USE_CASE, use)] + [(EXTRAS, extras)])
        == [(HOW_IT_WORKS, how), (USE_CASE, use), (EXTRAS, extras)];
    hide ToMap, HowSurvives, UseSurvives;
  }

  lemma MapOfThree(how: Text, use: Text, extras: Text)
    ensures ToMap([]) == map[]
    ensures ToMap([(HOW_IT_WORKS, how)]) == map[HOW_IT_WORKS := how]
    ensures ToMap([(HOW_IT_WORKS, how), (USE_CASE, use)]) == map[HOW_IT_WORKS := how, USE_CASE := use]
    ensures ToMap([(HOW_IT_WORKS, how), (USE_CASE, use), (EXTRAS, extras)])
         == map[HOW_IT_WORKS := how, USE_CASE := use, EXTRAS := extras]
  {
    var s := [(HOW_IT_WORKS, how), (USE_CASE, use), (EXTRAS, extras)];
    assert s[..2] == [(HOW_IT_WORKS, how), (USE_CASE, use)];
    assert s[..2][..1] == [(HOW_IT_WORKS, how)];
    assert s[..2][..1][..0] == [];
  }

  /** Each hand-written text of a printed block is read back if and only if no rule is in it or before it. */
  lemma SectionsNeedNoRule(pre: Text, b: BlockDoc, m: map<string, Text>, post: Text)
    requires QuietText(DescriptionOf(b)) && QuietText(Rows(b)) && CleanSections(m)
    requires forall l <- pre :: !IsHeading(l, b.name)
    ensures var r := ManualOf(pre + BlockText(b, m) + post, b.name);
            && r == ToMap(Survivors(b, m))
            && (HOW_IT_WORKS in r <==> HowSurvives(b, m)) && (USE_CASE in r <==> UseSurvives(b, m))
            && (EXTRAS in r <==> ExtrasSurvive(b, m))
  {
    PartIsRead(pre, b, m, post);
    InnerIsRead(b, m);
    KeysOfSurvivors(b, m);
    hide BlockPart, UntilRule, Inner, BlockText, Sections, ToMap, HowSurvives, UseSurvives, ExtrasSurvive, Survivors,
         IsHeading, CleanSections, DescriptionOf, Rows, Quiet;
  }
}
