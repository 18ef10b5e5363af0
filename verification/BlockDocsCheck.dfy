/**
 * Files as they are written and read again: what survives, when a second write changes nothing, and
 * exactly when the check passes.
 */
module BlockDocsCheck {
  import opened Prelude
  import opened DocText
  import opened DocReaders
  import opened BlockDocs
  import opened BlockDocFiles
  import opened BlockDocsSettle

  // ---------------------------------------------------------------- what is read back of a block

  function ReadBack(b: BlockDoc, m: map<string, Text>): map<string, Text> {
    ToMap(Survivors(b, m))
  }

  /** What is read of each block of a written file: its sections before its first rule. */
  lemma ManualIsRead(e: Text, title: string, bs: seq<BlockDoc>, b: BlockDoc)
    requires e != [] && PlainFile(e, title, bs) && b in bs
    ensures ManualOf(FileContent(e, title, bs), b.name) == ReadBack(b, ManualOf(e, b.name))
  {
    ManualOfIsClean(e, b.name);
    var before, after := FilePlace(e, title, bs, b);
    assert PlainBlock(b, bs);
    hide FileContent, CleanSections, ManualOf, GetOr, IsHeading, BlockText, Survivors, PlainFile, Rows, DescriptionOf,
         NoHeadings, ToMap, Quiet;
    SectionsNeedNoRule(before, b, ManualOf(e, b.name), after);
  }

  /** Each hand-written text is either read back or the one that is printed when there is none. */
  predicate Stable(b: BlockDoc, m: map<string, Text>) {
    && (HowSurvives(b, m) || GetOr(m, HOW_IT_WORKS, NO_EXPLANATION) == NO_EXPLANATION)
    && (UseSurvives(b, m) || GetOr(m, USE_CASE, NO_USE_CASE) == NO_USE_CASE)
    && (ExtrasSurvive(b, m) || GetOr(m, EXTRAS, EMPTY_TEXT) == EMPTY_TEXT)
  }

  /** No line begins with three dashes, in what the block prints by itself and in what is written by hand. */
  predicate RuleFree(b: BlockDoc, m: map<string, Text>) {
    !HasRule(DescriptionOf(b)) && !HasRule(Rows(b)) && !HasRule(HandWritten(m))
  }

  lemma RuleFreeIsStable(b: BlockDoc, m: map<string, Text>)
    requires RuleFree(b, m)
    ensures HowSurvives(b, m) && UseSurvives(b, m) && Stable(b, m)
    ensures GetOr(m, EXTRAS, EMPTY_TEXT) != EMPTY_TEXT ==> ExtrasSurvive(b, m)
  {
    assert forall l <- GetOr(m, HOW_IT_WORKS, NO_EXPLANATION) :: l in HandWritten(m);
    assert forall l <- GetOr(m, USE_CASE, NO_USE_CASE) :: l in HandWritten(m);
    assert forall l <- GetOr(m, EXTRAS, EMPTY_TEXT) :: l in HandWritten(m);
    hide GetOr, DescriptionOf, Rows, IsRule, HandWritten;
  }

  predicate WellFormed(existing: Text, title: string, bs: seq<BlockDoc>)
    requires existing != []
  {
    PlainFile(existing, title, bs) && forall b <- bs :: RuleFree(b, ManualOf(existing, b.name))
  }

  lemma ReadBackTexts(b: BlockDoc, m: map<string, Text>)
    ensures var r := ReadBack(b, m);
            && GetOr(r, HOW_IT_WORKS, NO_EXPLANATION)
               == (if HowSurvives(b, m) then GetOr(m, HOW_IT_WORKS, NO_EXPLANATION) else NO_EXPLANATION)
            && GetOr(r, USE_CASE, NO_USE_CASE)
               == (if UseSurvives(b, m) then GetOr(m, USE_CASE, NO_USE_CASE) else NO_USE_CASE)
            && GetOr(r, EXTRAS, EMPTY_TEXT)
               == (if ExtrasSurvive(b, m) then GetOr(m, EXTRAS, EMPTY_TEXT) else EMPTY_TEXT)
  {
    KeysOfSurvivors(b, m);
    hide HowSurvives, UseSurvives, ExtrasSurvive, Survivors, ToMap;
  }

  lemma StableBlock(b: BlockDoc, m: map<string, Text>)
    requires Stable(b, m)
    ensures BlockText(b, ReadBack(b, m)) == BlockText(b, m)
  {
    ReadBackTexts(b, m);
    hide GetOr, Opening, Tables, SectionLines, OptionalSection, HowSurvives, UseSurvives, ExtrasSurvive, ReadBack;
  }

  lemma UnstableBlock(b: BlockDoc, m: map<string, Text>)
    requires !Stable(b, m)
    ensures Printed(ReadBack(b, m)) != Printed(m)
  {
    ReadBackTexts(b, m);
    hide HowSurvives, UseSurvives, ExtrasSurvive, ReadBack, GetOr;
    PrintedTexts(m);
    PrintedTexts(ReadBack(b, m));
    hide Printed;
  }

  lemma PrintedTexts(m: map<string, Text>)
    ensures |Printed(m)| >= 2
    ensures Printed(m)[0].1 == GetOr(m, HOW_IT_WORKS, NO_EXPLANATION)
    ensures Printed(m)[1].1 == GetOr(m, USE_CASE, NO_USE_CASE)
    ensures GetOr(m, EXTRAS, EMPTY_TEXT) == if |Printed(m)| == 2 then EMPTY_TEXT else Printed(m)[2].1
  {
    hide GetOr;
  }

  lemma ReadBackIsPlain(b: BlockDoc, m: map<string, Text>, bs: seq<BlockDoc>)
    requires PlainSections(m, bs)
    ensures PlainSections(ReadBack(b, m), bs)
  {
    HandWrittenHasNoHeading(m, bs);
    KeysOfSurvivors(b, m);
    hide NoHeading, HowSurvives, UseSurvives, ExtrasSurvive, ReadBack, Survivors;
    forall k | k in {HOW_IT_WORKS, USE_CASE, EXTRAS} && k in ToMap(Survivors(b, m))
      ensures NoHeadings(ToMap(Survivors(b, m))[k], bs)
    {
      var t := ToMap(Survivors(b, m))[k];
      assert forall l <- t :: l in HandWritten(m);
    }
    IsReadBack(b, m);
  }

  lemma IsReadBack(b: BlockDoc, m: map<string, Text>)
    ensures ReadBack(b, m) == ToMap(Survivors(b, m))
  {
  }

  // ---------------------------------------------------------------- a second write

  lemma {:induction false} SameBlocks(e: Text, n: Text, bs: seq<BlockDoc>)
    requires forall b <- bs :: ManualOf(n, b.name) == ReadBack(b, ManualOf(e, b.name)) && Stable(b, ManualOf(e, b.name))
    ensures BlockTexts(n, bs) == BlockTexts(e, bs)
  {
    if bs == [] {
    } else {
      var b := bs[|bs| - 1];
      assert b in bs;
      SameBlocks(e, n, bs[..|bs| - 1]);
      StableBlock(b, ManualOf(e, b.name));
    }
  }

  lemma LastName(m: map<string, Text>)
    ensures |Printed(m)| in {2, 3}
    ensures Printed(m)[|Printed(m)| - 1].0 == if |Printed(m)| == 2 then USE_CASE else EXTRAS
  {
  }

  /** From the sections of a run of printed blocks those of each block can be told. */
  lemma {:induction false} SamePrinted(e: Text, n: Text, bs: seq<BlockDoc>)
    requires PrintedAll(n, bs) == PrintedAll(e, bs)
    ensures forall b <- bs :: Printed(ManualOf(n, b.name)) == Printed(ManualOf(e, b.name))
  {
    if bs == [] {
    } else {
      hide Printed, ManualOf;
      var k := |bs| - 1;
      SameLastPrinted(PrintedAll(n, bs[..k]), ManualOf(n, bs[k].name), PrintedAll(e, bs[..k]), ManualOf(e, bs[k].name));
      SamePrinted(e, n, bs[..k]);
      assert bs == bs[..k] + [bs[k]];
    }
  }

  lemma SameLastPrinted(a: seq<Section>, p: map<string, Text>, c: seq<Section>, q: map<string, Text>)
    requires a + Printed(p) == c + Printed(q)
    ensures a == c && Printed(p) == Printed(q)
  {
    LastName(p);
    LastName(q);
    DifferentNames();
    hide Printed;
    assert (a + Printed(p))[|a + Printed(p)| - 1] == Printed(p)[|Printed(p)| - 1];
    assert (c + Printed(q))[|c + Printed(q)| - 1] == Printed(q)[|Printed(q)| - 1];
    SameEnds(a, Printed(p), c, Printed(q));
  }

  lemma SameEnds<T>(a: seq<T>, p: seq<T>, c: seq<T>, q: seq<T>)
    requires a + p == c + q && |p| == |q|
    ensures a == c && p == q
  {
    assert a == (a + p)[..|a|] && c == (c + q)[..|c|];
    assert p == (a + p)[|a|..] && q == (c + q)[|c|..];
  }

  lemma PlainAgain(e: Text, title: string, bs: seq<BlockDoc>)
    requires e != [] && PlainFile(e, title, bs)
    ensures PlainFile(FileContent(e, title, bs), title, bs)
    ensures FileDescription(FileContent(e, title, bs)) == FileDescription(e)
  {
    DescriptionIsKept(e, title, bs);
    forall b | b in bs
      ensures PlainSections(ManualOf(FileContent(e, title, bs), b.name), bs)
    {
      ManualIsRead(e, title, bs, b);
      ReadBackIsPlain(b, ManualOf(e, b.name), bs);
    }
  }

  lemma Stays(e: Text, title: string, bs: seq<BlockDoc>)
    requires e != [] && PlainFile(e, title, bs)
    requires forall b <- bs :: Stable(b, ManualOf(e, b.name))
    ensures FileContent(FileContent(e, title, bs), title, bs) == FileContent(e, title, bs)
  {
    var n := FileContent(e, title, bs);
    DescriptionIsKept(e, title, bs);
    AdditionalIsKept(e, title, bs);
    SortedMembers(bs);
    forall b | b in SortByName(bs)
      ensures ManualOf(n, b.name) == ReadBack(b, ManualOf(e, b.name)) && Stable(b, ManualOf(e, b.name))
    {
      ManualIsRead(e, title, bs, b);
    }
    hide Stable, ReadBack, ManualOf, PlainFile;
    assert FileDescription(n) == FileDescription(e);
    SameBlocks(e, n, SortByName(bs));
  }

  lemma MiddleIsSame<T>(a: seq<T>, p: seq<T>, q: seq<T>, c: seq<T>)
    requires a + p + c == a + q + c
    ensures p == q
  {
    assert |p| == |q|;
    assert p == (a + p + c)[|a|..|a| + |p|] && q == (a + q + c)[|a|..|a| + |q|];
  }

  lemma StaysOnlyIf(e: Text, title: string, bs: seq<BlockDoc>, b: BlockDoc)
    requires e != [] && PlainFile(e, title, bs) && b in bs
    requires FileContent(FileContent(e, title, bs), title, bs) == FileContent(e, title, bs)
    ensures Stable(b, ManualOf(e, b.name))
  {
    var n := FileContent(e, title, bs);
    PlainAgain(e, title, bs);
    AdditionalIsKept(e, title, bs);
    FileSections(e, title, bs);
    FileSections(n, title, bs);
    ManualIsRead(e, title, bs, b);
    SortedMembers(bs);
    hide PlainFile, FileContent, Sections, Strip, FileDescription, AdditionalOf, OptionalEntry, SortByName,
         PrintedAll, Stable, ReadBack, ManualOf, Printed;
    MiddleIsSame([(FILE_DESCRIPTION, Strip([""] + FileDescription(e) + [""]))], PrintedAll(n, SortByName(bs)),
                 PrintedAll(e, SortByName(bs)), OptionalEntry(ADDITIONAL, AdditionalOf(e)));
    SamePrinted(e, n, SortByName(bs));
    if !Stable(b, ManualOf(e, b.name)) {
      UnstableBlock(b, ManualOf(e, b.name));
    }
  }

  // ---------------------------------------------------------------- what is written are lines

  /** A carriage return in what the block and its file print by themselves. */
  predicate PrintsReturn(title: string, b: BlockDoc) {
    '\r' in title || '\r' in b.name || exists l <- DescriptionOf(b) + Rows(b) :: '\r' in l
  }

  lemma {:induction false} RowsHaveNoNewline(fs: seq<Field>)
    ensures forall l <- InputRows(fs) :: '\n' !in l
    ensures forall l <- OutputRows(fs) :: '\n' !in l
  {
    if fs == [] {
    } else {
      var n := |fs| - 1;
      RowsHaveNoNewline(fs[..n]);
      SplitHasNo(InputRow(fs[n]), '\n');
      SplitHasNo(OutputRow(fs[n]), '\n');
      hide InputRow, OutputRow, Split;
    }
  }

  lemma OwnHasNoNewline(b: BlockDoc)
    ensures forall l <- DescriptionOf(b) :: '\n' !in l
    ensures forall l <- Rows(b) :: '\n' !in l
  {
    RowsHaveNoNewline(b.inputs);
    RowsHaveNoNewline(b.outputs);
    SplitHasNo(b.description, '\n');
    DescriptionIsOrdinary();
    OrdinaryIsQuiet(NO_DESCRIPTION[0]);
    hide InputRows, OutputRows, Split, Ordinary, NO_DESCRIPTION;
  }

  lemma OwnLinesAreLines(title: string, b: BlockDoc)
    requires !PrintsReturn(title, b)
    ensures AreLines(DescriptionOf(b) + Rows(b))
  {
    OwnHasNoNewline(b);
    hide DescriptionOf, Rows;
  }

  lemma PlaceholdersAreLines()
    ensures AreLines(NO_EXPLANATION) && AreLines(NO_USE_CASE) && AreLines(NO_FILE_DESCRIPTION) && AreLines(EMPTY_TEXT)
  {
    ExplanationIsOrdinary();
    UseCaseIsOrdinary();
    FileDescriptionIsOrdinary();
    hide Ordinary;
    OrdinaryIsQuiet(NO_EXPLANATION[0]);
    OrdinaryIsQuiet(NO_USE_CASE[0]);
    OrdinaryIsQuiet(NO_FILE_DESCRIPTION[0]);
  }

  lemma HandWrittenIsLines(e: Text, name: string)
    requires AreLines(e)
    ensures AreLines(HandWritten(ManualOf(e, name)))
  {
    PlaceholdersAreLines();
    match BlockPart(e, name)
    case Some(part) =>
      PartIsLines(e, name);
      ManualIsLines(part);
    case None =>
  }

  lemma MarkersAreLines()
    ensures AreLines(MARKERS) && IsLine(Marker(FILE_DESCRIPTION)) && IsLine(Marker(ADDITIONAL))
    ensures IsLine(CLOSE) && IsLine(RULE)
  {
    MarkerIsLine(HOW_IT_WORKS);
    MarkerIsLine(USE_CASE);
    MarkerIsLine(EXTRAS);
    MarkerIsLine(FILE_DESCRIPTION);
    MarkerIsLine(ADDITIONAL);
    hide Marker;
  }

  lemma BlockIsLines(title: string, b: BlockDoc, m: map<string, Text>)
    requires '\n' !in b.name && !PrintsReturn(title, b) && AreLines(HandWritten(m))
    ensures AreLines(BlockText(b, m))
  {
    OwnLinesAreLines(title, b);
    HeadingsAreQuiet();
    MarkersAreLines();
    assert IsLine("") && IsLine("## " + b.name);
    hide Inner, DescriptionOf, Rows, HandWritten, IsLine, HEADINGS, MARKERS;
    InnerAll(b, m, l => IsLine(l));
  }

  lemma {:induction false} BlocksAreLines(e: Text, title: string, bs: seq<BlockDoc>)
    requires AreLines(e) && forall b <- bs :: '\n' !in b.name && !PrintsReturn(title, b)
    ensures AreLines(BlockTexts(e, bs))
  {
    if bs == [] {
    } else {
      var n := |bs| - 1;
      hide BlockText, IsLine, ManualOf, PrintsReturn;
      BlocksAreLines(e, title, bs[..n]);
      assert bs[n] in bs;
      HandWrittenIsLines(e, bs[n].name);
      BlockIsLines(title, bs[n], ManualOf(e, bs[n].name));
    }
  }

  lemma DescriptionLines(e: Text)
    requires e != [] && AreLines(e)
    ensures AreLines(FileDescription(e))
  {
    PlaceholdersAreLines();
    if HeaderDescription(e).Some? {
      HeaderIsLines(e);
    }
  }

  lemma AdditionalLines(e: Text)
    requires AreLines(e)
    ensures AreLines(AdditionalOf(e))
  {
    PlaceholdersAreLines();
    ManualIsLines(e);
  }

  lemma HeaderLines(title: string, description: Text)
    requires IsLine(title) && AreLines(description)
    ensures AreLines(Header(title, description))
  {
    MarkersAreLines();
    assert IsLine("# " + title) && IsLine("");
    hide IsLine, Marker, MARKERS;
  }

  lemma OptionalLines(more: Text)
    requires AreLines(more)
    ensures AreLines(OptionalSection(ADDITIONAL, more))
  {
    MarkersAreLines();
    assert IsLine("");
    hide IsLine, Marker, MARKERS;
  }

  lemma FileIsLines(e: Text, title: string, bs: seq<BlockDoc>)
    requires e != [] && AreLines(e) && IsLine(title)
    requires forall b <- bs :: '\n' !in b.name && !PrintsReturn(title, b)
    ensures AreLines(FileContent(e, title, bs))
  {
    DescriptionLines(e);
    AdditionalLines(e);
    SortedMembers(bs);
    BlocksAreLines(e, title, SortByName(bs));
    FileGrouped(e, title, bs);
    hide Marker, BlockTexts, SortByName, IsLine, PrintsReturn, FileDescription, AdditionalOf, FileContent, PlainBlock;
    HeaderLines(title, FileDescription(e));
    OptionalLines(AdditionalOf(e));
  }

  // ---------------------------------------------------------------- written and read again

  /** Nothing the generator prints by itself holds a carriage return. */
  predicate NoReturns(title: string, bs: seq<BlockDoc>) {
    forall b <- bs :: !PrintsReturn(title, b)
  }

  lemma ReadAsWritten(content: string, title: string, bs: seq<BlockDoc>)
    requires bs != [] && PlainFile(Lines(content), title, bs) && NoReturns(title, bs)
    ensures Lines(FileString(content, title, bs)) == FileContent(Lines(content), title, bs)
  {
    assert bs[0] in bs;
    FileIsLines(Lines(content), title, bs);
    WrittenIsRead(FileContent(Lines(content), title, bs));
  }

  /** Writing a file a second time changes nothing. */
  lemma SecondWriteChangesNothing(content: string, title: string, bs: seq<BlockDoc>)
    requires bs != [] && WellFormed(Lines(content), title, bs) && NoReturns(title, bs)
    ensures FileString(FileString(content, title, bs), title, bs) == FileString(content, title, bs)
  {
    ReadAsWritten(content, title, bs);
    Stays(Lines(content), title, bs);
  }

  /** The hand-written texts under the heading of a block. */
  function SectionsUnder(t: Text, name: string): map<string, Text> {
    if BlockPart(t, name).Some? then ManualContent(BlockPart(t, name).value) else map[]
  }

  /** Every hand-written text of a block or file that is still generated survives a write. */
  lemma ManualTextSurvives(content: string, title: string, bs: seq<BlockDoc>, b: BlockDoc, key: string)
    requires WellFormed(Lines(content), title, bs) && NoReturns(title, bs) && b in bs
    ensures var e, n := Lines(content), Lines(FileString(content, title, bs));
            var before, after := SectionsUnder(e, b.name), SectionsUnder(n, b.name);
            && (key in {HOW_IT_WORKS, USE_CASE} && key in before ==> key in after && after[key] == before[key])
            && GetOr(after, EXTRAS, EMPTY_TEXT) == GetOr(before, EXTRAS, EMPTY_TEXT)
            && (HeaderDescription(e).Some? ==> HeaderDescription(n) == HeaderDescription(e))
            && GetOr(ManualContent(n), ADDITIONAL, EMPTY_TEXT) == GetOr(ManualContent(e), ADDITIONAL, EMPTY_TEXT)
  {
    var e := Lines(content);
    ReadAsWritten(content, title, bs);
    DescriptionIsKept(e, title, bs);
    AdditionalIsKept(e, title, bs);
    ManualIsRead(e, title, bs, b);
    var m := ManualOf(e, b.name);
    assert m == SectionsUnder(e, b.name);
    assert ManualOf(FileContent(e, title, bs), b.name) == SectionsUnder(FileContent(e, title, bs), b.name);
    RuleFreeIsStable(b, m);
    ReadBackTexts(b, m);
    KeysOfSurvivors(b, m);
    hide FileContent, WellFormed, ManualContent, ManualOf, Survivors, ToMap, HowSurvives, UseSurvives, ExtrasSurvive;
    hide SectionsUnder, HeaderDescription;
  }

  /**
   * After a write a hand-written text is read back if and only if no line of dashes is in it or
   * before it in its block.
   */
  lemma SectionsSurviveIff(content: string, title: string, bs: seq<BlockDoc>, b: BlockDoc)
    requires PlainFile(Lines(content), title, bs) && NoReturns(title, bs) && b in bs
    ensures var m, r := ManualOf(Lines(content), b.name), ManualOf(Lines(FileString(content, title, bs)), b.name);
            && (HOW_IT_WORKS in r <==> HowSurvives(b, m)) && (USE_CASE in r <==> UseSurvives(b, m))
            && (EXTRAS in r <==> ExtrasSurvive(b, m))
  {
    ReadAsWritten(content, title, bs);
    ManualIsRead(Lines(content), title, bs, b);
    KeysOfSurvivors(b, ManualOf(Lines(content), b.name));
  }

  // ---------------------------------------------------------------- rules come from types

  /** A line of the type after its first begins with three dashes. */
  predicate RuleInside(typeStr: string) {
    HasRule(Split(typeStr)[1..])
  }

  lemma {:induction false} SplitAfter(a: string, s: string)
    requires '\n' !in a
    ensures Split(a + s) == [a + Split(s)[0]] + Split(s)[1..]
  {
    if a == "" {
      assert a + s == s && a + Split(s)[0] == Split(s)[0];
    } else {
      assert (a + s)[1..] == a[1..] + s;
      SplitAfter(a[1..], s);
      assert [a[0]] + (a[1..] + Split(s)[0]) == a + Split(s)[0];
    }
  }

  lemma {:induction false} SplitBefore(s: string, c: string)
    requires '\n' !in c
    ensures var t, n := Split(s), |Split(s)| - 1;
            Split(s + c) == t[..n] + [t[n] + c]
  {
    if s == "" {
      assert s + c == c;
      SplitLine(c);
    } else {
      assert (s + c)[1..] == s[1..] + c;
      SplitBefore(s[1..], c);
      PushBefore(s[0], Split(s[1..]), c);
    }
  }

  lemma PushBefore(x: char, t: Text, c: string)
    requires t != []
    ensures var u := Push(x, t);
            Push(x, t[..|t| - 1] + [t[|t| - 1] + c]) == u[..|u| - 1] + [u[|u| - 1] + c]
  {
    var front, last := t[..|t| - 1], t[|t| - 1];
    if x == '\n' {
      assert [""] + t == ([""] + front) + [last];
      assert [""] + (front + [last + c]) == ([""] + front) + [last + c];
    } else if |t| == 1 {
      assert [x] + (t[0] + c) == [x] + t[0] + c;
    } else {
      assert (front + [last + c])[0] == t[0] && (front + [last + c])[1..] == t[1..|t| - 1] + [last + c];
    }
  }

  predicate Escaped(t: Text, u: Text) {
    |t| == |u| && forall i :: 0 <= i < |u| ==> t[i] == EscapePipes(u[i])
  }

  lemma EscapeFirst(front: string, x: char, t: Text, u: Text)
    requires t != [] && Escaped(t, u) && front == if x == '|' then "\\|" else [x]
    ensures Escaped([front + t[0]] + t[1..], [[x] + u[0]] + u[1..])
  {
    assert ([x] + u[0])[1..] == u[0];
    assert EscapePipes([x] + u[0]) == front + t[0];
    hide EscapePipes;
  }

  lemma {:induction false} EscapeLines(s: string)
    ensures Escaped(Split(EscapePipes(s)), Split(s))
  {
    if s == "" {
    } else {
      var x, r := s[0], s[1..];
      EscapeLines(r);
      if x == '\n' {
        assert EscapePipes(s)[1..] == EscapePipes(r);
      } else {
        var front := if x == '|' then "\\|" else [x];
        SplitAfter(front, EscapePipes(r));
        assert EscapePipes(s) == front + EscapePipes(r);
        hide Escaped, EscapePipes;
        EscapeFirst(front, x, Split(EscapePipes(r)), Split(r));
      }
    }
  }

  predicate DashesAhead(s: string, n: nat) {
    n == 0 || (s != "" && s[0] == '-' && DashesAhead(s[1..], n - 1))
  }

  lemma RuleIsDashes(l: string)
    ensures IsRule(l) <==> DashesAhead(l, 3)
  {
    if |l| >= 3 {
      assert l[0..3] == [l[0], l[1], l[2]];
      assert l[1..][1..] == l[2..];
      assert l[1..][0] == l[1] && l[2..][0] == l[2];
      assert DashesAhead(l[2..], 1) <==> l[2] == '-';
      assert DashesAhead(l[1..], 2) <==> l[1] == '-' && DashesAhead(l[2..], 1);
    } else {
      ShortOfDashes(l, 3);
    }
  }

  lemma {:induction false} ShortOfDashes(l: string, n: nat)
    requires |l| < n
    ensures !DashesAhead(l, n)
  {
    if l == "" {
    } else {
      ShortOfDashes(l[1..], n - 1);
    }
  }

  lemma {:induction false} EscapedDashes(l: string, c: string, n: nat)
    requires c == "" || c[0] == ' '
    ensures DashesAhead(EscapePipes(l) + c, n) <==> DashesAhead(l, n)
  {
    var e := EscapePipes(l) + c;
    if n == 0 {
    } else if l == "" {
      assert e == c;
    } else if l[0] == '|' {
      assert e[0] == '\\';
    } else {
      EscapedDashes(l[1..], c, n - 1);
      assert e[0] == l[0] && e[1..] == EscapePipes(l[1..]) + c;
    }
  }

  lemma EscapedRule(l: string, c: string)
    requires c == "" || c[0] == ' '
    ensures IsRule(EscapePipes(l) + c) <==> IsRule(l)
  {
    RuleIsDashes(l);
    RuleIsDashes(EscapePipes(l) + c);
    EscapedDashes(l, c, 3);
  }

  lemma {:induction false} CellHasNoNewline(s: string)
    ensures '\n' !in OnOneLine(s)
    ensures '\n' !in s ==> '\n' !in EscapePipes(s)
  {
    if s == "" {
    } else {
      CellHasNoNewline(s[1..]);
    }
  }

  lemma AroundLines(a: string, t: Text, c: string)
    requires t != []
    ensures var m, n := [a + t[0]] + t[1..], |t| - 1;
            var row := m[..n] + [m[n] + c];
            && |row| == |t| && a <= row[0]
            && forall i :: 1 <= i < |t| ==> row[i] == t[i] + if i == n then c else ""
  {
  }

  /** The lines of a row. */
  lemma RowLines(a: string, u: string, c: string)
    requires '\n' !in a && '\n' !in c
    ensures var row, v := Split(a + EscapePipes(u) + c), Split(u);
            && |row| == |v| && a <= row[0]
            && forall i :: 1 <= i < |v| ==> row[i] == EscapePipes(v[i]) + if i == |v| - 1 then c else ""
  {
    EscapeLines(u);
    SplitAfter(a, EscapePipes(u));
    SplitBefore(a + EscapePipes(u), c);
    hide Split, EscapePipes;
    AroundLines(a, Split(EscapePipes(u)), c);
  }

  /** Only a row's first line holds the name and the description. */
  lemma RowHasRule(a: string, u: string, c: string)
    requires a != "" && a[0] == '|' && '\n' !in a && c != "" && c[0] == ' ' && '\n' !in c
    ensures HasRule(Split(a + EscapePipes(u) + c)) <==> HasRule(Split(u)[1..])
  {
    RowLines(a, u, c);
    var row, v := Split(a + EscapePipes(u) + c), Split(u);
    assert row[0][0] == '|';
    FirstCharacter(row[0], RULE);
    forall i | 1 <= i < |v|
      ensures IsRule(row[i]) <==> IsRule(v[i])
    {
      EscapedRule(v[i], if i == |v| - 1 then c else "");
    }
    assert !IsRule(row[0]);
    hide IsRule, Split, EscapePipes;
    SameRules(row, v);
  }

  lemma SameRules(a: Text, b: Text)
    requires |a| == |b| > 0 && !IsRule(a[0])
    requires forall i :: 1 <= i < |a| ==> (IsRule(a[i]) <==> IsRule(b[i]))
    ensures HasRule(a) <==> HasRule(b[1..])
  {
    hide IsRule;
    if HasRule(a) {
      var i :| 0 <= i < |a| && IsRule(a[i]);
      assert b[1..][i - 1] == b[i];
    }
    if HasRule(b[1..]) {
      var i :| 0 <= i < |b[1..]| && IsRule(b[1..][i]);
      assert b[1..][i] == b[i + 1];
      assert IsRule(a[i + 1]);
    }
  }

  lemma RowRule(f: Field)
    requires '\n' !in f.name
    ensures HasRule(Split(InputRow(f))) <==> RuleInside(f.typeStr)
    ensures HasRule(Split(OutputRow(f))) <==> RuleInside(f.typeStr)
  {
    var u := if f.typeStr == "" then "-" else f.typeStr;
    var d := if f.description == "" then "-" else f.description;
    CellHasNoNewline(d);
    CellHasNoNewline(OnOneLine(d));
    SplitLine("-");
    hide Split, EscapePipes, OnOneLine, IsRule;
    RowHasRule(RowStart(f), u, if f.required then " | Yes |" else " | No |");
    RowHasRule(RowStart(f), u, " |");
  }

  predicate AnyRuleInside(fs: seq<Field>) {
    exists f <- fs :: !f.hidden && RuleInside(f.typeStr)
  }

  lemma {:induction false} RowsRule(fs: seq<Field>)
    requires forall f <- fs :: !f.hidden ==> '\n' !in f.name
    ensures HasRule(InputRows(fs)) <==> AnyRuleInside(fs)
    ensures HasRule(OutputRows(fs)) <==> AnyRuleInside(fs)
  {
    if fs == [] {
    } else {
      var n := |fs| - 1;
      var f, r := fs[n], fs[..n];
      RowsRule(r);
      if !f.hidden {
        RowRule(f);
      }
      hide HasRule, RuleInside, Split, InputRow, OutputRow, AnyRuleInside;
      RuleInEither(InputRows(r), Split(InputRow(f)));
      RuleInEither(OutputRows(r), Split(OutputRow(f)));
      OneMoreField(fs);
    }
  }

  lemma OneMoreField(fs: seq<Field>)
    requires fs != []
    ensures var n := |fs| - 1;
            AnyRuleInside(fs) <==> AnyRuleInside(fs[..n]) || (!fs[n].hidden && RuleInside(fs[n].typeStr))
  {
    hide RuleInside;
    var n := |fs| - 1;
    assert fs == fs[..n] + [fs[n]];
  }

  lemma RuleInEither(a: Text, b: Text)
    ensures HasRule(a + b) <==> HasRule(a) || HasRule(b)
  {
    hide IsRule;
    assert forall l <- a :: l in a + b;
    assert forall l <- b :: l in a + b;
  }

  /**
   * The rows hold a rule exactly when the type of a visible field has a line, after its first, that
   * begins with three dashes: the newlines of a type are printed, those of a description are not.
   */
  lemma RulesComeFromTypes(b: BlockDoc)
    requires forall f <- b.inputs + b.outputs :: !f.hidden ==> '\n' !in f.name
    ensures HasRule(Rows(b)) <==> exists f <- b.inputs + b.outputs :: !f.hidden && RuleInside(f.typeStr)
  {
    assert forall f <- b.inputs :: f in b.inputs + b.outputs;
    assert forall f <- b.outputs :: f in b.inputs + b.outputs;
    RowsRule(b.inputs);
    RowsRule(b.outputs);
    hide IsRule, InputRows, OutputRows, RuleInside;
    RuleInEither(InputRows(b.inputs), OutputRows(b.outputs));
  }
}
