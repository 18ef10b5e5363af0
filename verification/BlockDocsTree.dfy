/** The whole documentation tree: a second write, and exactly when the check passes after a write. */
module BlockDocsTree {
  import opened DocText
  import opened DocReaders
  import opened BlockDocs
  import opened BlockDocFiles
  import opened BlockDocsSettle
  import opened BlockDocsCheck

  // ---------------------------------------------------------------- stripping a written file

  lemma BlocksEnd(e: Text, bs: seq<BlockDoc>) returns (before: Text)
    requires bs != []
    ensures BlockTexts(e, bs) == before + [RULE, ""]
  {
    var b := bs[|bs| - 1];
    before := BlockTexts(e, bs[..|bs| - 1]) + (["## " + b.name, ""] + Inner(b, ManualOf(e, b.name)));
  }

  lemma AfterBlocks(t: Text, s: Text, e: Text, more: Text, last: string)
    ensures t + (s + (e + (more + [last, ""] + []))) == t + (s + e + more) + [last, ""]
  {
  }

  lemma AfterSection(t: Text, s: Text, e: Text, b: Text, k: string, a: Text, last: string)
    ensures t + (s + (e + (b + ([k] + a + [last] + [""])))) == t + (s + e + b + [k] + a) + [last, ""]
  {
  }

  lemma FileEnd(e: Text, title: string, bs: seq<BlockDoc>) returns (before: Text, last: string)
    requires e != [] && bs != []
    ensures FileContent(e, title, bs) == ["# " + title] + before + [last, ""] && last in {RULE, CLOSE}
  {
    var sorted := SortByName(bs);
    SortedMembers(bs);
    assert bs[0] in sorted;
    FileGrouped(e, title, bs);
    hide FileContent, SortByName, BlockTexts, AdditionalOf, FileDescription, Marker;
    var s := SectionLines(FILE_DESCRIPTION, FileDescription(e));
    if AdditionalOf(e) == EMPTY_TEXT {
      var more := BlocksEnd(e, sorted);
      before, last := s + [""] + more, RULE;
      AfterBlocks(["# " + title], s, [""], more, RULE);
    } else {
      before, last := s + [""] + BlockTexts(e, sorted) + [Marker(ADDITIONAL)] + AdditionalOf(e), CLOSE;
      AfterSection(["# " + title], s, [""], BlockTexts(e, sorted), Marker(ADDITIONAL), AdditionalOf(e), CLOSE);
    }
  }

  lemma LastIsTrimmed(last: string)
    requires last in {RULE, CLOSE}
    ensures TrimRight(last) == last && !Blank(last)
  {
    var c := last[|last| - 1];
    assert c == '-' || c == '>';
    assert c in last && !IsSpace(c);
  }

  lemma FirstIsTrimmed(title: string)
    ensures TrimLeft("# " + title) == "# " + title && !Blank("# " + title)
  {
    var l := "# " + title;
    assert l[0] == '#' && l[0] in l && !IsSpace('#');
  }

  /** Stripping takes the final newline of a written file and nothing else. */
  lemma FileStripped(e: Text, title: string, bs: seq<BlockDoc>)
    requires e != [] && bs != []
    ensures FileContent(e, title, bs) == Strip(FileContent(e, title, bs)) + [""]
  {
    hide *;
    var before, last := FileEnd(e, title, bs);
    LastIsTrimmed(last);
    FirstIsTrimmed(title);
    var u := ["# " + title] + before + [last];
    assert FileContent(e, title, bs) == u + [""];
    StripsLastLine(u);
  }

  lemma StripsLastLine(u: Text)
    requires |u| > 1 && !Blank(u[0]) && TrimLeft(u[0]) == u[0]
    requires !Blank(u[|u| - 1]) && TrimRight(u[|u| - 1]) == u[|u| - 1]
    ensures Strip(u + [""]) == u
  {
    hide TrimFront, TrimBack, Blank, TrimLeft, TrimRight;
    FrontStays(u + [""]);
    BackGoes(u);
    BackStays(u);
  }

  // ---------------------------------------------------------------- carriage returns

  lemma {:induction false} BlockWithin(e: Text, bs: seq<BlockDoc>, b: BlockDoc) returns (before: Text, after: Text)
    requires b in bs
    ensures BlockTexts(e, bs) == before + BlockText(b, ManualOf(e, b.name)) + after
  {
    var n := |bs| - 1;
    hide BlockText, ManualOf;
    var text := BlockText(bs[n], ManualOf(e, bs[n].name));
    if b == bs[n] {
      before, after := BlockTexts(e, bs[..n]), [];
    } else {
      assert b in bs[..n];
      before, after := BlockWithin(e, bs[..n], b);
      Grouped(before + BlockText(b, ManualOf(e, b.name)), after, text);
      after := after + text;
    }
  }

  /** What a block prints by itself is before its closing rule. */
  lemma ReturnInBlock(title: string, b: BlockDoc, m: map<string, Text>)
    requires PrintsReturn(title, b)
    ensures '\r' in title || HasReturn(["## " + b.name, ""] + Inner(b, m))
  {
    if '\r' !in title {
      var head := "## " + b.name;
      if '\r' in b.name {
        assert '\r' in head;
      } else {
        var l :| l in DescriptionOf(b) + Rows(b) && '\r' in l;
        assert l in DescriptionOf(b) ==> l in Opening(b);
        assert l in InputRows(b.inputs) ==> l in InputTable(b);
        assert l in OutputRows(b.outputs) ==> l in OutputTable(b);
        assert l in Opening(b) || l in Tables(b);
        hide Opening, Tables, SectionLines, OptionalSection;
        assert l in Inner(b, m);
      }
    }
  }

  lemma AroundBlock(t: Text, d: Text, p: Text, h: Text, r: Text, q: Text, c: Text)
    ensures (t + d) + (p + (h + r) + q) + c == (t + (d + p + h)) + r + (q + c)
  {
  }

  lemma ReturnAfter(t: Text, d: Text, p: Text, h: Text)
    requires HasReturn(t) || HasReturn(h)
    ensures HasReturn(t + (d + p + h))
  {
    if HasReturn(t) {
      var l :| l in t && '\r' in l;
      assert l in t + (d + p + h);
    } else {
      var l :| l in h && '\r' in l;
      assert l in t + (d + p + h);
    }
  }

  /** What a file prints between its title and its first block. */
  function AfterTitle(e: Text): Text
    requires e != []
  {
    [Marker(FILE_DESCRIPTION)] + FileDescription(e) + [CLOSE, ""]
  }

  lemma FileInThree(e: Text, title: string, bs: seq<BlockDoc>)
    requires e != []
    ensures FileContent(e, title, bs)
         == (["# " + title] + AfterTitle(e)) + BlockTexts(e, SortByName(bs))
            + OptionalSection(ADDITIONAL, AdditionalOf(e))
  {
    hide FileDescription, BlockTexts, SortByName, OptionalSection, AdditionalOf, Marker;
  }

  lemma ReturnInTitle(title: string)
    requires '\r' in title
    ensures HasReturn(["# " + title])
  {
    var l := "# " + title;
    assert l[2..] == title;
    assert '\r' in l && l in ["# " + title];
  }

  /** The file up to the rule that closes the block. */
  lemma FileAround(e: Text, title: string, bs: seq<BlockDoc>, b: BlockDoc) returns (mid: Text, after: Text)
    requires e != [] && b in bs && PrintsReturn(title, b)
    ensures FileContent(e, title, bs) == (["# " + title] + mid) + [RULE, ""] + after
    ensures mid != [] && HasReturn(["# " + title] + mid)
  {
    var m := ManualOf(e, b.name);
    var h := ["## " + b.name, ""] + Inner(b, m);
    SortedMembers(bs);
    assert BlockText(b, m) == h + [RULE, ""];
    ReturnInBlock(title, b, m);
    if '\r' in title {
      ReturnInTitle(title);
    }
    assert h != [];
    hide FileContent, SortByName, BlockTexts, BlockText, Inner, ManualOf, AfterTitle, AdditionalOf, OptionalSection,
         PrintsReturn, HasReturn;
    var p, q := BlockWithin(e, SortByName(bs), b);
    var t, d, more := ["# " + title], AfterTitle(e), OptionalSection(ADDITIONAL, AdditionalOf(e));
    FileInThree(e, title, bs);
    AroundBlock(t, d, p, h, [RULE, ""], q, more);
    ReturnAfter(t, d, p, h);
    mid, after := d + p + h, q + more;
  }

  lemma SplitParts(a: Text, b: Text)
    requires a != [] && b != []
    ensures Split(Join(a + b)) == Split(Join(a)) + Split(Join(b))
  {
    JoinMore(a, b);
    SplitMore(Join(a), Join(b));
  }

  lemma FirstLine(title: string)
    ensures var l := Split("# " + title)[0]; l != "" && !IsSpace(l[0])
  {
    var s := "# " + title;
    assert s[0] == '#' && !IsSpace('#');
    hide IsSpace;
    assert Split(s)[0][0] == '#';
  }

  lemma RuleIsLine()
    ensures !Blank(RULE) && Split(Join([RULE, ""])) == [RULE, ""]
  {
    assert RULE[0] == '-' && RULE[0] in RULE && !IsSpace('-');
    SplitJoin([RULE, ""]);
  }

  lemma ReturnStays(x: Text, tail: Text)
    requires x != [] && x[0] != "" && !IsSpace(x[0][0]) && HasReturn(x)
    ensures !AreLines(Strip(x + [RULE, ""] + tail))
  {
    RuleIsLine();
    hide Strip, Blank, IsSpace;
    StripKeeps(x[0], x[1..], RULE, [""] + tail);
    assert [x[0]] + x[1..] == x;
    assert x + [RULE] + ([""] + tail) == x + [RULE, ""] + tail;
    var l :| l in x && '\r' in l;
    assert l in Strip(x + [RULE, ""] + tail);
  }

  /** With a carriage return in what is printed the check fails, whatever is on disk. */
  lemma ReturnFailsCheck(onDisk: string, content: string, title: string, bs: seq<BlockDoc>, b: BlockDoc)
    requires b in bs && PrintsReturn(title, b)
    ensures !SameStripped(onDisk, FileString(content, title, bs))
  {
    var mid, after := FileAround(Lines(content), title, bs, b);
    var front := ["# " + title] + mid;
    hide FileContent, PrintsReturn, Strip, Lines, HasReturn, Split, Join, IsSpace;
    OneLine("# " + title);
    FirstLine(title);
    SplitParts(["# " + title], mid);
    var x := Split(Join(front));
    ReturnIsJoined(front);
    JoinSplit(Join(front));
    ReturnIsJoined(x);
    var tail := SplitRest(front, after);
    ReturnStays(x, tail);
    StripIsLines(Lines(onDisk));
  }

  lemma OneLine(l: string)
    ensures Join([l]) == l
  {
  }

  lemma SplitRest(front: Text, after: Text) returns (tail: Text)
    requires front != []
    ensures Split(Join(front + [RULE, ""] + after)) == Split(Join(front)) + [RULE, ""] + tail
  {
    RuleIsLine();
    SplitParts(front, [RULE, ""]);
    hide Split, Join;
    if after == [] {
      tail := [];
      assert front + [RULE, ""] + after == front + [RULE, ""];
    } else {
      SplitParts(front + [RULE, ""], after);
      tail := Split(Join(after));
    }
  }

  // ---------------------------------------------------------------- the check after a write

  /** What is printed holds no carriage return, and no line of dashes cuts off a hand-written text. */
  predicate Settles(content: string, title: string, bs: seq<BlockDoc>) {
    NoReturns(title, bs) && forall b <- bs :: Stable(b, ManualOf(Lines(content), b.name))
  }

  /** A written file is in sync with what a second write would put there exactly when it settles. */
  lemma FileCheckIff(content: string, title: string, bs: seq<BlockDoc>)
    requires bs != [] && PlainFile(Lines(content), title, bs)
    ensures var n := FileString(content, title, bs);
            SameStripped(n, FileString(n, title, bs)) <==> Settles(content, title, bs)
    ensures Settles(content, title, bs)
            ==> FileString(FileString(content, title, bs), title, bs) == FileString(content, title, bs)
  {
    var e, n := Lines(content), FileString(content, title, bs);
    if NoReturns(title, bs) {
      var f := FileContent(e, title, bs);
      ReadAsWritten(content, title, bs);
      PlainAgain(e, title, bs);
      ReadAsWritten(n, title, bs);
      hide FileContent, PlainFile, NoReturns, Stable, Strip, ManualOf, Join;
      WrittenText(n, title, bs);
      FileStripped(e, title, bs);
      FileStripped(f, title, bs);
      assert SameStripped(n, FileString(n, title, bs)) <==> f == FileContent(f, title, bs);
      if f == FileContent(f, title, bs) {
        forall b | b in bs
          ensures Stable(b, ManualOf(e, b.name))
        {
          StaysOnlyIf(e, title, bs, b);
        }
      }
      if forall b <- bs :: Stable(b, ManualOf(e, b.name)) {
        Stays(e, title, bs);
      }
    } else {
      var b :| b in bs && PrintsReturn(title, b);
      ReturnFailsCheck(n, n, title, bs, b);
    }
  }

  /** The lines of what is written are those of the text it is made of. */
  lemma WrittenText(content: string, title: string, bs: seq<BlockDoc>)
    requires bs != [] && PlainFile(Lines(content), title, bs) && NoReturns(title, bs)
    ensures Split(FileString(content, title, bs)) == FileContent(Lines(content), title, bs)
  {
    assert bs[0] in bs;
    FileIsLines(Lines(content), title, bs);
    SplitJoin(FileContent(Lines(content), title, bs));
  }

  lemma {:induction false} BlocksOfPath(blocks: seq<BlockDoc>, path: string)
    requires path in Paths(blocks)
    ensures BlocksOf(blocks, path) != []
    ensures forall b <- BlocksOf(blocks, path) :: b in blocks
  {
    hide FilePath;
    var n := |blocks| - 1;
    var b :| b in blocks && FilePath(b) == path;
    assert blocks == blocks[..n] + [blocks[n]];
    if path in Paths(blocks[..n]) {
      BlocksOfPath(blocks[..n], path);
    } else {
      assert b !in blocks[..n];
      NoBlocks(blocks[..n], path);
    }
  }

  /** Every file that gets a block is plain. */
  predicate PlainTree(site: Site, tree: Tree, blocks: seq<BlockDoc>) {
    forall path <- Paths(blocks) ::
      PlainFile(Lines(Existing(tree, path)), site.title(path), BlocksOf(blocks, path))
  }

  /** No carriage return is in the page, white space around it aside. */
  predicate PageSettles(page: string) {
    !HasReturn(Strip(Split(page)))
  }

  predicate FileSettles(site: Site, tree: Tree, blocks: seq<BlockDoc>, path: string) {
    Settles(Existing(tree, path), site.title(path), BlocksOf(blocks, path))
  }

  lemma WrittenFile(site: Site, tree: Tree, blocks: seq<BlockDoc>, path: string)
    requires PlainTree(site, tree, blocks) && path in Paths(blocks)
    ensures var written := WriteDocs(site, tree, blocks);
            && path in written.files && written.files[path] == NewFile(site, tree, blocks, path)
            && (FileInSync(site, written, blocks, path) <==> FileSettles(site, tree, blocks, path))
            && (FileSettles(site, tree, blocks, path)
                ==> NewFile(site, written, blocks, path) == written.files[path])
  {
    BlocksOfPath(blocks, path);
    FileCheckIff(Existing(tree, path), site.title(path), BlocksOf(blocks, path));
    hide FileString, PlainFile, Settles, BlocksOf, Paths, SameStripped;
  }

  /** After a write the check passes if and only if every file and both index pages settle. */
  lemma CheckPassesIff(site: Site, tree: Tree, blocks: seq<BlockDoc>)
    requires PlainTree(site, tree, blocks)
    ensures InSync(site, WriteDocs(site, tree, blocks), blocks)
       <==> && (forall path <- Paths(blocks) :: FileSettles(site, tree, blocks, path))
            && PageSettles(site.overview(blocks)) && PageSettles(site.summary(blocks))
  {
    PageIsReadIff(site.overview(blocks));
    PageIsReadIff(site.summary(blocks));
    hide PlainFile, FileInSync, FileSettles, Paths, Written, Strip, Lines, HasReturn;
    forall path | path in Paths(blocks)
      ensures FileInSync(site, WriteDocs(site, tree, blocks), blocks, path) <==> FileSettles(site, tree, blocks, path)
    {
      WrittenFile(site, tree, blocks, path);
    }
  }

  lemma {:induction false} TrimBackStarts(t: Text)
    requires t != [] && t[0] != "" && !IsSpace(t[0][0])
    ensures TrimBack(t)[0] != ""
  {
    if |t| > 1 && Blank(t[|t| - 1]) {
      TrimBackStarts(t[..|t| - 1]);
    }
  }

  lemma StripStarts(t: Text)
    requires t != [] && t[0] != "" && !IsSpace(t[0][0])
    ensures Strip(t) != EMPTY_TEXT
  {
    assert t[0][0] in t[0] && TrimLeft(t[0]) == t[0];
    FrontStays(t);
    hide TrimFront;
    TrimBackStarts(t);
  }

  /** What is written begins with a title, so it is never blank. */
  lemma WrittenIsNotBlank(content: string, title: string, bs: seq<BlockDoc>)
    ensures Strip(Split(FileString(content, title, bs))) != EMPTY_TEXT
  {
    var e := Lines(content);
    FirstLine(title);
    OneLine("# " + title);
    var first, rest := ["# " + title], FileContent(e, title, bs)[1..];
    assert rest != [] && FileContent(e, title, bs) == first + rest;
    hide FileContent, Strip, Split, Join, IsSpace;
    SplitParts(first, rest);
    StripStarts(Split(FileString(content, title, bs)));
  }

  /**
   * Whatever is on disk, the check fails if the file of some block is missing or holds nothing but
   * white space, or if an index page is missing.
   */
  lemma MissingFails(site: Site, tree: Tree, blocks: seq<BlockDoc>, b: BlockDoc)
    requires b in blocks
    requires || FilePath(b) !in tree.files || Strip(Lines(tree.files[FilePath(b)])) == EMPTY_TEXT
             || tree.overview.None? || tree.summary.None?
    ensures !InSync(site, tree, blocks)
  {
    var path := FilePath(b);
    assert path in Paths(blocks);
    if path in tree.files && Strip(Lines(tree.files[path])) == EMPTY_TEXT && InSync(site, tree, blocks) {
      assert FileInSync(site, tree, blocks, path);
      WrittenIsNotBlank(tree.files[path], site.title(path), BlocksOf(blocks, path));
    }
  }

  /** A tree that settles is written once: a second write changes nothing. */
  lemma SecondTreeWriteChangesNothing(site: Site, tree: Tree, blocks: seq<BlockDoc>)
    requires PlainTree(site, tree, blocks)
    requires forall path <- Paths(blocks) :: FileSettles(site, tree, blocks, path)
    ensures WriteDocs(site, WriteDocs(site, tree, blocks), blocks) == WriteDocs(site, tree, blocks)
  {
    var written := WriteDocs(site, tree, blocks);
    forall path | path in Paths(blocks)
      ensures path in written.files && NewFile(site, written, blocks, path) == written.files[path]
    {
      WrittenFile(site, tree, blocks, path);
    }
    hide NewFile, PlainTree, Paths, FileSettles;
    SameOverlay(written.files, NewFiles(site, written, blocks, Paths(blocks)));
  }

  lemma SameOverlay(a: map<string, string>, b: map<string, string>)
    requires forall k <- b :: k in a && a[k] == b[k]
    ensures a + b == a
  {
  }

  /** No description and no type of a field shown has a line of dashes that is printed as one. */
  predicate PlainTypes(b: BlockDoc) {
    && !HasRule(DescriptionOf(b))
    && forall f <- b.inputs + b.outputs :: !f.hidden ==> '\n' !in f.name && !RuleInside(f.typeStr)
  }

  /** Neither a line of dashes nor a carriage return is anywhere in what is printed. */
  predicate WellFormedTree(site: Site, tree: Tree, blocks: seq<BlockDoc>) {
    && PlainTree(site, tree, blocks)
    && (forall b <- blocks :: PlainTypes(b))
    && (forall path <- Paths(blocks) ::
          && NoReturns(site.title(path), BlocksOf(blocks, path))
          && forall b <- BlocksOf(blocks, path) ::
               !HasRule(HandWritten(ManualOf(Lines(Existing(tree, path)), b.name))))
    && '\r' !in site.overview(blocks) && '\r' !in site.summary(blocks)
  }

  lemma PlainPage(page: string)
    requires '\r' !in page
    ensures PageSettles(page)
  {
    PageIsReadIff(page);
  }

  lemma WellFormedSettles(site: Site, tree: Tree, blocks: seq<BlockDoc>, path: string)
    requires WellFormedTree(site, tree, blocks) && path in Paths(blocks)
    ensures FileSettles(site, tree, blocks, path)
  {
    BlocksOfPath(blocks, path);
    var e := Lines(Existing(tree, path));
    forall b | b in BlocksOf(blocks, path)
      ensures Stable(b, ManualOf(e, b.name))
    {
      assert PlainTypes(b);
      RulesComeFromTypes(b);
      RuleFreeIsStable(b, ManualOf(e, b.name));
    }
    hide Stable, BlocksOf, Lines, NoReturns, Paths;
  }

  /** For such a tree a write leaves one that passes the check and that a second write leaves alone. */
  lemma CheckPassesAfterWrite(site: Site, tree: Tree, blocks: seq<BlockDoc>)
    requires WellFormedTree(site, tree, blocks)
    ensures var written := WriteDocs(site, tree, blocks);
            InSync(site, written, blocks) && WriteDocs(site, written, blocks) == written
  {
    forall path | path in Paths(blocks)
      ensures FileSettles(site, tree, blocks, path)
    {
      WellFormedSettles(site, tree, blocks, path);
    }
    PlainPage(site.overview(blocks));
    PlainPage(site.summary(blocks));
    hide FileSettles, PageSettles, PlainFile, Paths, WriteDocs, InSync;
    CheckPassesIff(site, tree, blocks);
    SecondTreeWriteChangesNothing(site, tree, blocks);
  }
}
