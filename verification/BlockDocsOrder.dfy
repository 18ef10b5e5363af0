/** The order of the blocks in a documentation file, and which file a block is in. */
module BlockDocsOrder {
  import opened DocText
  import opened DocReaders
  import opened BlockDocs
  import opened BlockDocFiles
  import opened BlockDocsSettle

  // ---------------------------------------------------------------- the order of names

  /** The names agree up to position `k`, where the first ends or has the smaller character. */
  predicate DifferAt(a: string, b: string, k: nat) {
    && k <= |a| && k < |b|
    && (forall i :: 0 <= i < k ==> a[i] == b[i])
    && (k == |a| || a[k] < b[k])
  }

  /** The first name is a proper beginning of the second, or smaller where they first differ. */
  ghost predicate Before(a: string, b: string) {
    exists k: nat :: DifferAt(a, b, k)
  }

  lemma DifferLater(a: string, b: string, k: nat)
    requires a != "" && b != ""
    ensures DifferAt(a, b, 0) <==> a[0] < b[0]
    ensures DifferAt(a, b, k + 1) <==> a[0] == b[0] && DifferAt(a[1..], b[1..], k)
  {
    if a[0] == b[0] && DifferAt(a[1..], b[1..], k) {
      forall i | 0 <= i < k + 1
        ensures a[i] == b[i]
      {
        assert i > 0 ==> a[i] == a[1..][i - 1] && b[i] == b[1..][i - 1];
      }
    }
    if DifferAt(a, b, k + 1) {
      assert forall i :: 0 <= i < k ==> a[1..][i] == a[i + 1] && b[1..][i] == b[i + 1];
    }
  }

  lemma {:induction false} NameLessIff(a: string, b: string)
    ensures NameLess(a, b) <==> Before(a, b)
  {
    if a == "" || b == "" {
      assert b != "" ==> DifferAt(a, b, 0);
    } else {
      hide DifferAt;
      NameLessIff(a[1..], b[1..]);
      forall k: nat
        ensures DifferAt(a, b, 0) <==> a[0] < b[0]
        ensures DifferAt(a, b, k + 1) <==> a[0] == b[0] && DifferAt(a[1..], b[1..], k)
      {
        DifferLater(a, b, k);
      }
      DifferLater(a, b, 0);
      if k: nat :| DifferAt(a, b, k) {
        if k > 0 {
          DifferLater(a, b, k - 1);
        }
      }
      if k: nat :| DifferAt(a[1..], b[1..], k) && a[0] == b[0] {
        DifferLater(a, b, k);
      }
    }
  }

  /** Of two names one is before the other, unless they are the same. */
  lemma {:induction false} SomeOrder(a: string, b: string)
    ensures NameLess(a, b) || a == b || NameLess(b, a)
    ensures !(NameLess(a, b) && NameLess(b, a)) && !NameLess(a, a)
  {
    if a != "" && b != "" {
      SomeOrder(a[1..], b[1..]);
      assert a == [a[0]] + a[1..] && b == [b[0]] + b[1..];
    } else if a != "" {
      SomeOrder(a[1..], a[1..]);
    }
  }

  lemma {:induction false} NameLessChains(a: string, b: string, c: string)
    requires NameLess(a, b) && NameLess(b, c)
    ensures NameLess(a, c)
  {
    if a != "" && a[0] == b[0] == c[0] {
      NameLessChains(a[1..], b[1..], c[1..]);
    }
  }

  // ---------------------------------------------------------------- sorting

  ghost predicate InNameOrder(bs: seq<BlockDoc>) {
    forall i, j :: 0 <= i < j < |bs| ==> Before(bs[i].name, bs[j].name) || bs[i].name == bs[j].name
  }

  /** The blocks with this name, in the given order. */
  function Named(bs: seq<BlockDoc>, name: string): seq<BlockDoc> {
    if bs == [] then [] else (if bs[0].name == name then [bs[0]] else []) + Named(bs[1..], name)
  }

  lemma {:induction false} NamedAppend(a: seq<BlockDoc>, b: seq<BlockDoc>, name: string)
    ensures Named(a + b, name) == Named(a, name) + Named(b, name)
  {
    if a == [] {
      assert a + b == b;
    } else {
      assert (a + b)[1..] == a[1..] + b;
      NamedAppend(a[1..], b, name);
    }
  }

  /** No block of a sorted list comes before its first one. */
  ghost predicate Ascending(bs: seq<BlockDoc>) {
    bs == [] || (Ascending(bs[1..]) && forall c <- bs[1..] :: !NameLess(c.name, bs[0].name))
  }

  lemma {:induction false} InsertMembers(b: BlockDoc, bs: seq<BlockDoc>, c: BlockDoc)
    requires c in InsertByName(b, bs)
    ensures c == b || c in bs
  {
    if bs != [] && !NameLess(b.name, bs[0].name) {
      if c != bs[0] {
        InsertMembers(b, bs[1..], c);
      }
    }
  }

  lemma {:induction false} InsertAscends(b: BlockDoc, bs: seq<BlockDoc>)
    requires Ascending(bs)
    ensures Ascending(InsertByName(b, bs))
  {
    hide NameLess;
    var r := InsertByName(b, bs);
    if bs == [] {
      assert r[1..] == [];
    } else if NameLess(b.name, bs[0].name) {
      assert r[1..] == bs;
      forall c | c in bs
        ensures !NameLess(c.name, b.name)
      {
        assert c in bs[1..] || c == bs[0];
        SomeOrder(bs[0].name, bs[0].name);
        if NameLess(c.name, b.name) {
          NameLessChains(c.name, b.name, bs[0].name);
        }
      }
    } else {
      InsertAscends(b, bs[1..]);
      assert r[1..] == InsertByName(b, bs[1..]);
      forall c | c in r[1..]
        ensures !NameLess(c.name, bs[0].name)
      {
        InsertMembers(b, bs[1..], c);
      }
    }
  }

  lemma {:induction false} InsertKeepsOthers(b: BlockDoc, bs: seq<BlockDoc>, name: string)
    requires Ascending(bs)
    ensures Named(InsertByName(b, bs), name) == Named(bs + [b], name)
  {
    hide NameLess;
    var r := InsertByName(b, bs);
    if bs == [] {
      assert bs + [b] == [b] + bs;
    } else if NameLess(b.name, bs[0].name) {
      NamedAppend(bs, [b], name);
      assert r[1..] == bs && [b][1..] == [];
      if name == b.name {
        SmallerIsAbsent(bs, name);
      }
    } else {
      InsertKeepsOthers(b, bs[1..], name);
      assert r[1..] == InsertByName(b, bs[1..]);
      assert (bs + [b])[1..] == bs[1..] + [b];
    }
  }

  lemma {:induction false} SmallerIsAbsent(bs: seq<BlockDoc>, name: string)
    requires Ascending(bs) && bs != [] && NameLess(name, bs[0].name)
    ensures Named(bs, name) == []
  {
    hide NameLess;
    SomeOrder(name, name);
    if |bs| > 1 {
      var next := bs[1].name;
      assert bs[1] in bs[1..];
      SomeOrder(bs[0].name, next);
      if bs[0].name != next {
        NameLessChains(name, bs[0].name, next);
      }
      SmallerIsAbsent(bs[1..], name);
    } else {
      assert bs[1..] == [];
    }
  }

  lemma {:induction false} SortAscends(bs: seq<BlockDoc>)
    ensures Ascending(SortByName(bs))
  {
    if bs != [] {
      SortAscends(bs[..|bs| - 1]);
      InsertAscends(bs[|bs| - 1], SortByName(bs[..|bs| - 1]));
    }
  }

  lemma {:induction false} AscendingIsOrdered(bs: seq<BlockDoc>)
    requires Ascending(bs)
    ensures InNameOrder(bs)
  {
    hide NameLess, Before;
    if bs != [] {
      AscendingIsOrdered(bs[1..]);
      forall i, j | 0 <= i < j < |bs|
        ensures Before(bs[i].name, bs[j].name) || bs[i].name == bs[j].name
      {
        if i == 0 {
          assert bs[j] in bs[1..];
          SomeOrder(bs[0].name, bs[j].name);
          NameLessIff(bs[0].name, bs[j].name);
        } else {
          assert bs[i] == bs[1..][i - 1] && bs[j] == bs[1..][j - 1];
        }
      }
    }
  }

  lemma {:induction false} SortNamed(bs: seq<BlockDoc>, name: string)
    ensures Named(SortByName(bs), name) == Named(bs, name)
  {
    hide Named, InsertByName;
    if bs == [] {
    } else {
      var front, last := bs[..|bs| - 1], bs[|bs| - 1];
      SortNamed(front, name);
      SortAscends(front);
      assert bs == front + [last] && SortByName(bs) == InsertByName(last, SortByName(front));
      hide SortByName;
      InsertKeepsOthers(last, SortByName(front), name);
      NamedAppend(SortByName(front), [last], name);
      NamedAppend(front, [last], name);
    }
  }

  /** The blocks sorted: in the order of their names, and in the given order where names are equal. */
  ghost predicate IsSortOf(order: seq<BlockDoc>, bs: seq<BlockDoc>) {
    InNameOrder(order) && forall name :: Named(order, name) == Named(bs, name)
  }

  lemma SortIsSortOf(bs: seq<BlockDoc>)
    ensures IsSortOf(SortByName(bs), bs)
  {
    SortAscends(bs);
    AscendingIsOrdered(SortByName(bs));
    forall name
      ensures Named(SortByName(bs), name) == Named(bs, name)
    {
      SortNamed(bs, name);
    }
    hide SortByName, Named, InNameOrder;
  }

  // ---------------------------------------------------------------- where the headings stand

  /** The line that begins a block, with the newlines around it. */
  function HeadingOf(b: BlockDoc): string {
    "\n## " + b.name + "\n"
  }

  /** The headings of the blocks stand one after the other at these positions of the text. */
  ghost predicate HeadingsAt(s: string, order: seq<BlockDoc>, at: seq<nat>) {
    && |at| == |order|
    && (forall i, j :: 0 <= i < j < |at| ==> at[i] < at[j])
    && (forall i :: 0 <= i < |at| ==> StartsAt(s, at[i], HeadingOf(order[i])))
  }

  lemma StillStarts(s: string, more: string, i: nat, p: string)
    requires StartsAt(s, i, p)
    ensures StartsAt(s + more, i, p)
  {
    assert (s + more)[i..i + |p|] == s[i..i + |p|];
  }

  lemma BlockStarts(b: BlockDoc, manual: map<string, Text>)
    ensures HeadingOf(b) <= "\n" + Join(BlockText(b, manual))
  {
    hide Inner, Join;
    var rest := [""] + Inner(b, manual) + [RULE, ""];
    assert BlockText(b, manual) == ["## " + b.name] + rest;
    JoinMore(["## " + b.name], rest);
    JoinOne("## " + b.name);
    JoinedStart("\n", "## " + b.name, Join(rest));
    assert "\n" + ("## " + b.name) + "\n" == HeadingOf(b);
  }

  lemma JoinOne(l: string)
    ensures Join([l]) == l
  {
  }

  lemma JoinedStart(a: string, l: string, rest: string)
    ensures a + l + "\n" <= a + (l + "\n" + rest)
  {
    assert a + (l + "\n" + rest) == (a + l + "\n") + rest;
  }

  lemma AddHeading(s: string, order: seq<BlockDoc>, at: seq<nat>, b: BlockDoc, more: string)
    requires HeadingsAt(s, order, at) && HeadingOf(b) <= more
    requires forall i :: 0 <= i < |at| ==> at[i] < |s|
    ensures HeadingsAt(s + more, order + [b], at + [|s|])
  {
    hide HeadingOf;
    var more' := at + [|s|];
    forall i | 0 <= i < |more'|
      ensures StartsAt(s + more, more'[i], HeadingOf((order + [b])[i]))
    {
      if i < |at| {
        StillStarts(s, more, at[i], HeadingOf(order[i]));
      } else {
        assert (s + more)[|s|..|s| + |HeadingOf(b)|] == more[..|HeadingOf(b)|] == HeadingOf(b);
      }
    }
  }

  /** The string of one more block begins with a newline and its heading. */
  lemma NextPart(e: Text, start: Text, order: seq<BlockDoc>, n: nat) returns (more: string)
    requires start != [] && n < |order|
    ensures Join(start + BlockTexts(e, order[..n + 1])) == Join(start + BlockTexts(e, order[..n])) + more
    ensures HeadingOf(order[n]) <= more && more != ""
  {
    hide BlockText, ManualOf, HeadingOf, Join;
    var manual := ManualOf(e, order[n].name);
    NextBlockText(e, order, n);
    BlockStarts(order[n], manual);
    more := "\n" + Join(BlockText(order[n], manual));
    hide BlockTexts;
    JoinGrouped(start, BlockTexts(e, order[..n]), BlockText(order[n], manual));
    Grouped(Join(start + BlockTexts(e, order[..n])), "\n", Join(BlockText(order[n], manual)));
  }

  lemma {:induction false} PlaceHeadings(e: Text, start: Text, order: seq<BlockDoc>, n: nat) returns (at: seq<nat>)
    requires start != [] && n <= |order|
    ensures var s := Join(start + BlockTexts(e, order[..n]));
            HeadingsAt(s, order[..n], at) && forall i :: 0 <= i < |at| ==> at[i] < |s|
  {
    hide BlockTexts, HeadingOf, Join;
    if n == 0 {
      at := [];
    } else {
      at := PlaceHeadings(e, start, order, n - 1);
      var s := Join(start + BlockTexts(e, order[..n - 1]));
      var more := NextPart(e, start, order, n - 1);
      AddHeading(s, order[..n - 1], at, order[n - 1], more);
      assert order[..n] == order[..n - 1] + [order[n - 1]];
      at := at + [|s|];
    }
  }

  /**
   * For every earlier content, title and blocks: the headings of all the blocks stand in the written
   * string one after the other, in the order of the names, and in the given order where two are equal.
   */
  lemma HeadingsInOrder(content: string, title: string, bs: seq<BlockDoc>)
    ensures exists order, at :: IsSortOf(order, bs) && HeadingsAt(FileString(content, title, bs), order, at)
  {
    var e, order := Lines(content), SortByName(bs);
    var start := Header(title, FileDescription(e));
    SortIsSortOf(bs);
    hide SortByName, IsSortOf, Header, FileDescription, BlockTexts, AdditionalOf, HeadingOf, Lines;
    var at := PlaceHeadings(e, start, order, |order|);
    assert order[..|order|] == order;
    var more := OptionalSection(ADDITIONAL, AdditionalOf(e));
    hide OptionalSection;
    JoinBegins(start + BlockTexts(e, order), more);
    HeadingsStay(Join(start + BlockTexts(e, order)), FileString(content, title, bs), order, at);
  }

  lemma JoinBegins(a: Text, b: Text)
    requires a != []
    ensures Join(a) <= Join(a + b)
  {
    if b == [] {
      assert a + b == a;
    } else {
      JoinMore(a, b);
      assert Join(a) + "\n" + Join(b) == Join(a) + ("\n" + Join(b));
    }
  }

  lemma HeadingsStay(s: string, t: string, order: seq<BlockDoc>, at: seq<nat>)
    requires s <= t && HeadingsAt(s, order, at)
    ensures HeadingsAt(t, order, at)
  {
    assert t == s + t[|s|..];
    forall i | 0 <= i < |at|
      ensures StartsAt(t, at[i], HeadingOf(order[i]))
    {
      StillStarts(s, t[|s|..], at[i], HeadingOf(order[i]));
    }
  }

  // ---------------------------------------------------------------- all headings of a file

  predicate IsBlockHeading(l: string) {
    "## " <= l
  }

  /** The lines of a text that look like the heading of a block. */
  function HeadingLines(t: Text): seq<string> {
    if t == [] then [] else (if IsBlockHeading(t[0]) then [t[0]] else []) + HeadingLines(t[1..])
  }

  function OwnHeadings(order: seq<BlockDoc>): seq<string> {
    if order == [] then [] else OwnHeadings(order[..|order| - 1]) + ["## " + order[|order| - 1].name]
  }

  /** Single lines, none of which looks like the heading of a block. */
  predicate Plain(t: Text) {
    forall l <- t :: '\n' !in l && !IsBlockHeading(l)
  }

  /** Nothing but the blocks' own headings looks like one, and these are single lines. */
  predicate OnlyOwnHeadings(e: Text, title: string, bs: seq<BlockDoc>)
    requires e != []
  {
    && Plain(Header(title, FileDescription(e)))
    && (forall b <- bs :: '\n' !in b.name && Plain(Inner(b, ManualOf(e, b.name))))
    && Plain(OptionalSection(ADDITIONAL, AdditionalOf(e)))
  }

  lemma {:induction false} HeadingLinesAppend(a: Text, b: Text)
    ensures HeadingLines(a + b) == HeadingLines(a) + HeadingLines(b)
  {
    hide IsBlockHeading;
    if a == [] {
      assert a + b == b;
    } else {
      assert (a + b)[1..] == a[1..] + b && (a + b)[0] == a[0];
      HeadingLinesAppend(a[1..], b);
      Grouped(if IsBlockHeading(a[0]) then [a[0]] else [], HeadingLines(a[1..]), HeadingLines(b));
    }
  }

  lemma {:induction false} NoHeadingLines(t: Text)
    requires Plain(t)
    ensures HeadingLines(t) == []
  {
    if t != [] {
      assert t[0] in t;
      NoHeadingLines(t[1..]);
    }
  }

  lemma PlainEnds()
    ensures Plain([""]) && Plain([RULE, ""])
  {
    assert RULE[0] == '-' && '\n' !in RULE && '\n' !in "";
  }

  lemma PlainJoins(a: Text, b: Text)
    requires Plain(a) && Plain(b)
    ensures Plain(a + b)
  {
  }

  lemma PlainAround(t: Text)
    requires Plain(t)
    ensures Plain([""] + t + [RULE, ""])
  {
    PlainEnds();
    hide Plain;
    PlainJoins([""], t);
    PlainJoins([""] + t, [RULE, ""]);
  }

  lemma OneHeading(name: string, rest: Text)
    requires '\n' !in name && Plain(rest)
    ensures HeadingLines(["## " + name] + rest) == ["## " + name]
    ensures forall l <- ["## " + name] + rest :: '\n' !in l
  {
    NoHeadingLines(rest);
    assert (["## " + name] + rest)[1..] == rest;
  }

  lemma BlockHasOneHeading(b: BlockDoc, manual: map<string, Text>)
    requires '\n' !in b.name && Plain(Inner(b, manual))
    ensures HeadingLines(BlockText(b, manual)) == ["## " + b.name]
    ensures forall l <- BlockText(b, manual) :: '\n' !in l
  {
    hide Inner, Plain, HeadingLines;
    PlainAround(Inner(b, manual));
    OneHeading(b.name, [""] + Inner(b, manual) + [RULE, ""]);
    assert BlockText(b, manual) == ["## " + b.name] + ([""] + Inner(b, manual) + [RULE, ""]);
  }

  lemma {:induction false} BlocksHaveOwnHeadings(e: Text, bs: seq<BlockDoc>)
    requires forall b <- bs :: '\n' !in b.name && Plain(Inner(b, ManualOf(e, b.name)))
    ensures HeadingLines(BlockTexts(e, bs)) == OwnHeadings(bs)
    ensures forall l <- BlockTexts(e, bs) :: '\n' !in l
  {
    hide BlockText, Inner, ManualOf, Plain;
    if bs != [] {
      var n := |bs| - 1;
      BlocksHaveOwnHeadings(e, bs[..n]);
      assert bs[n] in bs;
      BlockHasOneHeading(bs[n], ManualOf(e, bs[n].name));
      HeadingLinesAppend(BlockTexts(e, bs[..n]), BlockText(bs[n], ManualOf(e, bs[n].name)));
    }
  }

  lemma HeadingsOfFile(h: Text, t: Text, o: Text)
    requires h != [] && Plain(h) && Plain(o) && forall l <- t :: '\n' !in l
    ensures HeadingLines(Split(Join(h + t + o))) == HeadingLines(t)
  {
    SplitJoin(h + t + o);
    HeadingLinesAppend(h + t, o);
    HeadingLinesAppend(h, t);
    NoHeadingLines(h);
    NoHeadingLines(o);
  }

  /** If nothing else looks like one, the headings of the written file are those of the names in their order. */
  lemma FileListsNamesInOrder(content: string, title: string, bs: seq<BlockDoc>)
    requires OnlyOwnHeadings(Lines(content), title, bs)
    ensures exists order ::
              IsSortOf(order, bs) && HeadingLines(Split(FileString(content, title, bs))) == OwnHeadings(order)
  {
    var e, order := Lines(content), SortByName(bs);
    SortIsSortOf(bs);
    SortedMembers(bs);
    hide SortByName, IsSortOf, Header, FileDescription, BlockTexts, AdditionalOf, OptionalSection, Lines, Plain, Inner;
    BlocksHaveOwnHeadings(e, order);
    HeadingsOfFile(Header(title, FileDescription(e)), BlockTexts(e, order),
                   OptionalSection(ADDITIONAL, AdditionalOf(e)));
  }

  // ---------------------------------------------------------------- which blocks share a file

  /** The block's source is in a subdirectory. */
  predicate Nested(b: BlockDoc) {
    |b.sourceParts| > 2
  }

  function PrimaryCategory(b: BlockDoc): string {
    if b.categories == [] then "BASIC" else b.categories[0]
  }

  /** Directory and file names hold no slash. */
  predicate IsFileName(b: BlockDoc) {
    Nested(b) ==> '/' !in b.sourceParts[1] && '/' !in b.sourceStem
  }

  lemma NestedPathTells(b: BlockDoc, c: BlockDoc)
    requires Nested(b) && Nested(c) && IsFileName(b) && IsFileName(c) && FilePath(b) == FilePath(c)
    ensures b.sourceParts[1] == c.sourceParts[1] && b.sourceStem == c.sourceStem
  {
    var p, q := b.sourceParts[1], c.sourceParts[1];
    assert FilePath(b) == p + "/" + (b.sourceStem + ".md") && FilePath(c) == q + "/" + (c.sourceStem + ".md");
    FirstSlash(p, b.sourceStem + ".md");
    FirstSlash(q, c.sourceStem + ".md");
    assert |p| == |q|;
    assert p == FilePath(b)[..|p|] == FilePath(c)[..|q|] == q;
    assert b.sourceStem + ".md" == FilePath(b)[|p| + 1..] == FilePath(c)[|q| + 1..] == c.sourceStem + ".md";
    SameStem(b.sourceStem, c.sourceStem);
  }

  lemma FirstSlash(p: string, rest: string)
    requires '/' !in p
    ensures (p + "/" + rest)[|p|] == '/' && forall i :: 0 <= i < |p| ==> (p + "/" + rest)[i] != '/'
  {
    assert forall i :: 0 <= i < |p| ==> (p + "/" + rest)[i] == p[i];
  }

  lemma CategoryFileTells(x: string, y: string)
    requires x in CATEGORY_FILES && y in CATEGORY_FILES && CATEGORY_FILES[x] == CATEGORY_FILES[y]
    ensures x == y
  {
  }

  lemma CategoryFilesArePlain(x: string)
    requires x in CATEGORY_FILES
    ensures CATEGORY_FILES[x] != "misc" && '/' !in CATEGORY_FILES[x]
  {
  }

  lemma TopPath(b: BlockDoc)
    requires !Nested(b)
    ensures var x := PrimaryCategory(b);
            FilePath(b) == (if x in CATEGORY_FILES then CATEGORY_FILES[x] else "misc") + ".md" && '/' !in FilePath(b)
  {
    if PrimaryCategory(b) in CATEGORY_FILES {
      CategoryFilesArePlain(PrimaryCategory(b));
    }
  }

  lemma SameStem(a: string, b: string)
    ensures a + ".md" == b + ".md" <==> a == b
  {
    if a + ".md" == b + ".md" {
      assert a == (a + ".md")[..|a|] && b == (b + ".md")[..|b|];
    }
  }

  /**
   * Two blocks share a file exactly if both come from subdirectories and have the same one and the
   * same file name, or both do not and have the same primary category or both one without a file.
   */
  lemma ShareFileIff(b: BlockDoc, c: BlockDoc)
    requires IsFileName(b) && IsFileName(c)
    ensures FilePath(b) == FilePath(c)
       <==> if Nested(b) && Nested(c) then b.sourceParts[1] == c.sourceParts[1] && b.sourceStem == c.sourceStem
            else
              && !Nested(b) && !Nested(c)
              && (|| PrimaryCategory(b) == PrimaryCategory(c)
                  || (PrimaryCategory(b) !in CATEGORY_FILES && PrimaryCategory(c) !in CATEGORY_FILES))
  {
    if Nested(b) && Nested(c) {
      if FilePath(b) == FilePath(c) {
        NestedPathTells(b, c);
      }
    } else if Nested(b) || Nested(c) {
      NestedHasSlash(b);
      NestedHasSlash(c);
      hide FilePath;
      if !Nested(b) {
        TopPath(b);
      } else {
        TopPath(c);
      }
    } else {
      hide FilePath;
      TopPath(b);
      TopPath(c);
      ShareCategory(PrimaryCategory(b), PrimaryCategory(c));
    }
  }

  lemma NestedHasSlash(b: BlockDoc)
    ensures Nested(b) ==> '/' in FilePath(b)
  {
    if Nested(b) {
      assert FilePath(b)[|b.sourceParts[1]|] == '/';
    }
  }

  lemma ShareCategory(x: string, y: string)
    ensures (if x in CATEGORY_FILES then CATEGORY_FILES[x] else "misc") + ".md"
         == (if y in CATEGORY_FILES then CATEGORY_FILES[y] else "misc") + ".md"
       <==> x == y || (x !in CATEGORY_FILES && y !in CATEGORY_FILES)
  {
    SameStem(if x in CATEGORY_FILES then CATEGORY_FILES[x] else "misc",
             if y in CATEGORY_FILES then CATEGORY_FILES[y] else "misc");
    if x in CATEGORY_FILES {
      CategoryFilesArePlain(x);
    }
    if y in CATEGORY_FILES {
      CategoryFilesArePlain(y);
    }
    if x in CATEGORY_FILES && y in CATEGORY_FILES && CATEGORY_FILES[x] == CATEGORY_FILES[y] {
      CategoryFileTells(x, y);
    }
  }
}
