/** The generated documentation files: which block goes where, writing them and checking them. */
module BlockDocFiles {
  import opened Prelude
  import opened DocText
  import opened DocReaders
  import opened BlockDocs

  // ---------------------------------------------------------------- which file

  const CATEGORY_FILES: map<string, string> :=
    map["BASIC" := "basic", "TEXT" := "text", "AI" := "llm", "SEARCH" := "search", "DATA" := "data",
        "LOGIC" := "logic", "COMMUNICATION" := "communication", "MULTIMEDIA" := "multimedia",
        "PRODUCTIVITY" := "productivity"]

  function FilePath(b: BlockDoc): string {
    if |b.sourceParts| > 2 then b.sourceParts[1] + "/" + b.sourceStem + ".md"
    else
      var category := if b.categories == [] then "BASIC" else b.categories[0];
      (if category in CATEGORY_FILES then CATEGORY_FILES[category] else "misc") + ".md"
  }

  /** The blocks of one file, in the given order. */
  function BlocksOf(blocks: seq<BlockDoc>, path: string): seq<BlockDoc> {
    if blocks == [] then []
    else BlocksOf(blocks[..|blocks| - 1], path)
         + (if FilePath(blocks[|blocks| - 1]) == path then [blocks[|blocks| - 1]] else [])
  }

  /** The files that get a block. */
  function Paths(blocks: seq<BlockDoc>): set<string> {
    set b <- blocks :: FilePath(b)
  }

  function FileMapping(blocks: seq<BlockDoc>): map<string, seq<BlockDoc>> {
    map path <- Paths(blocks) :: BlocksOf(blocks, path)
  }

  method GetBlockFileMapping(blocks: seq<BlockDoc>) returns (mapping: map<string, seq<BlockDoc>>)
    ensures mapping == FileMapping(blocks)
  {
    hide FileMapping, FilePath;
    mapping := map[];
    NoFiles();
    for i := 0 to |blocks|
      invariant mapping == FileMapping(blocks[..i])
    {
      var path := FilePath(blocks[i]);
      MappingGrows(blocks[..i], blocks[i]);
      assert blocks[..i + 1] == blocks[..i] + [blocks[i]];
      if path !in mapping {
        mapping := mapping[path := []];
      }
      mapping := mapping[path := mapping[path] + [blocks[i]]];
    }
    assert blocks[..|blocks|] == blocks;
  }

  lemma PathsGrow(bs: seq<BlockDoc>, b: BlockDoc)
    ensures Paths(bs + [b]) == Paths(bs) + {FilePath(b)}
  {
    hide FilePath;
    assert forall c :: c in bs + [b] <==> c in bs || c == b;
  }

  lemma NoFiles()
    ensures FileMapping([]) == map[]
  {
  }

  lemma MappingGrows(bs: seq<BlockDoc>, b: BlockDoc)
    ensures var m := FileMapping(bs);
            FileMapping(bs + [b])
            == m[FilePath(b) := (if FilePath(b) in m then m[FilePath(b)] else []) + [b]]
  {
    hide FilePath;
    var cs, path, m := bs + [b], FilePath(b), FileMapping(bs);
    assert cs[..|bs|] == bs && cs[|bs|] == b;
    if path !in m {
      NoBlocks(bs, path);
    }
    PathsGrow(bs, b);
    var m' := m[path := (if path in m then m[path] else []) + [b]];
    assert FileMapping(cs).Keys == m'.Keys;
    forall p | p in m'
      ensures FileMapping(cs)[p] == m'[p]
    {
      assert BlocksOf(cs, p) == BlocksOf(bs, p) + (if p == path then [b] else []);
    }
  }

  lemma {:induction false} NoBlocks(blocks: seq<BlockDoc>, path: string)
    requires path !in Paths(blocks)
    ensures BlocksOf(blocks, path) == []
  {
    if blocks == [] {
    } else {
      var n := |blocks| - 1;
      assert blocks[n] in blocks;
      forall b | b in blocks[..n]
        ensures FilePath(b) != path
      {
        assert b in blocks;
      }
      NoBlocks(blocks[..n], path);
    }
  }

  // ---------------------------------------------------------------- one file

  predicate NameLess(a: string, b: string) {
    if b == "" then false
    else if a == "" then true
    else a[0] < b[0] || (a[0] == b[0] && NameLess(a[1..], b[1..]))
  }

  function InsertByName(b: BlockDoc, bs: seq<BlockDoc>): seq<BlockDoc> {
    if bs == [] || NameLess(b.name, bs[0].name) then [b] + bs else [bs[0]] + InsertByName(b, bs[1..])
  }

  /** Stable order by name. */
  function SortByName(bs: seq<BlockDoc>): seq<BlockDoc> {
    if bs == [] then [] else InsertByName(bs[|bs| - 1], SortByName(bs[..|bs| - 1]))
  }

  function FileDescription(existing: Text): Text
    requires existing != []
  {
    match HeaderDescription(existing)
    case Some(d) => d
    case None => NO_FILE_DESCRIPTION
  }

  function ManualOf(existing: Text, name: string): map<string, Text> {
    match BlockPart(existing, name)
    case Some(part) => ManualContent(part)
    case None => map[]
  }

  function AdditionalOf(existing: Text): Text {
    GetOr(ManualContent(existing), ADDITIONAL, EMPTY_TEXT)
  }

  function Header(title: string, description: Text): (t: Text)
    ensures t != []
  {
    ["# " + title, Marker(FILE_DESCRIPTION)] + description + [CLOSE, ""]
  }

  function BlockTexts(existing: Text, bs: seq<BlockDoc>): Text {
    if bs == [] then []
    else BlockTexts(existing, bs[..|bs| - 1]) + BlockText(bs[|bs| - 1], ManualOf(existing, bs[|bs| - 1].name))
  }

  /** The content of a file, from what the file held before and its blocks. */
  function FileContent(existing: Text, title: string, bs: seq<BlockDoc>): (t: Text)
    requires existing != []
    ensures t != []
  {
    Header(title, FileDescription(existing))
    + BlockTexts(existing, SortByName(bs))
    + OptionalSection(ADDITIONAL, AdditionalOf(existing))
  }

  /** The content that is written, from the content that was there. */
  function FileString(content: string, title: string, bs: seq<BlockDoc>): string {
    Join(FileContent(Lines(content), title, bs))
  }

  lemma NoBlockTexts(existing: Text)
    ensures BlockTexts(existing, []) == []
  {
  }

  lemma NextBlockText(existing: Text, bs: seq<BlockDoc>, i: nat)
    requires i < |bs|
    ensures BlockTexts(existing, bs[..i + 1])
         == BlockTexts(existing, bs[..i]) + BlockText(bs[i], ManualOf(existing, bs[i].name))
  {
    hide BlockText, ManualOf;
    assert bs[..i + 1][..i] == bs[..i];
  }

  /** The content of one file, put together part by part from the content it had. */
  method WriteFile(content: string, title: string, bs: seq<BlockDoc>) returns (expected: string)
    ensures expected == FileString(content, title, bs)
  {
    hide Header, FileDescription, BlockTexts, BlockText, SortByName, ManualOf, AdditionalOf, Marker, Join, Lines;
    var existing := Lines(content);
    var start := Header(title, FileDescription(existing));
    expected := Join(start);
    var sorted := SortByName(bs);
    NoBlockTexts(existing);
    assert start + [] == start;
    for i := 0 to |sorted|
      invariant expected == Join(start + BlockTexts(existing, sorted[..i]))
    {
      var manual := ManualOf(existing, sorted[i].name);
      var part := GenerateBlockMarkdown(sorted[i], manual);
      NextBlockText(existing, sorted, i);
      JoinGrouped(start, BlockTexts(existing, sorted[..i]), BlockText(sorted[i], manual));
      expected := expected + "\n" + part;
    }
    assert sorted[..|sorted|] == sorted;
    var additional := AdditionalOf(existing);
    if additional != EMPTY_TEXT {
      JoinMore(start + BlockTexts(existing, sorted), SectionLines(ADDITIONAL, additional) + [""]);
      expected := expected + "\n" + Join(SectionLines(ADDITIONAL, additional) + [""]);
    } else {
      assert start + BlockTexts(existing, sorted) + [] == start + BlockTexts(existing, sorted);
    }
  }

  lemma JoinGrouped(a: Text, b: Text, c: Text)
    requires a != [] && c != []
    ensures Join(a + (b + c)) == Join(a + b) + "\n" + Join(c)
  {
    Grouped(a, b, c);
    JoinMore(a + b, c);
  }

  // ---------------------------------------------------------------- the whole tree

  /** What is computed elsewhere: file titles and the two index pages. */
  datatype Site = Site(
    title: string -> string,
    overview: seq<BlockDoc> -> string,
    summary: seq<BlockDoc> -> string)

  datatype Tree = Tree(files: map<string, string>, overview: Option<string>, summary: Option<string>)

  function Existing(tree: Tree, path: string): string {
    if path in tree.files then tree.files[path] else ""
  }

  function NewFile(site: Site, tree: Tree, blocks: seq<BlockDoc>, path: string): string {
    FileString(Existing(tree, path), site.title(path), BlocksOf(blocks, path))
  }

  function NewFiles(site: Site, tree: Tree, blocks: seq<BlockDoc>, done: set<string>): map<string, string> {
    map path <- done :: NewFile(site, tree, blocks, path)
  }

  /** The files while `done` of them have been written. */
  function Written(site: Site, tree: Tree, blocks: seq<BlockDoc>, done: set<string>): map<string, string> {
    tree.files + NewFiles(site, tree, blocks, done)
  }

  function WriteDocs(site: Site, tree: Tree, blocks: seq<BlockDoc>): Tree {
    Tree(Written(site, tree, blocks, Paths(blocks)),
         Some(site.overview(blocks)),
         Some(site.summary(blocks)))
  }

  lemma WrittenGrows(site: Site, tree: Tree, blocks: seq<BlockDoc>, done: set<string>, path: string)
    ensures Written(site, tree, blocks, done + {path})
         == Written(site, tree, blocks, done)[path := NewFile(site, tree, blocks, path)]
  {
    hide NewFile;
  }

  /** The file as it is read equals the expected content up to surrounding white space. */
  predicate SameStripped(content: string, expected: string) {
    Strip(Lines(content)) == Strip(Split(expected))
  }

  predicate FileInSync(site: Site, tree: Tree, blocks: seq<BlockDoc>, path: string) {
    path in tree.files && SameStripped(tree.files[path], NewFile(site, tree, blocks, path))
  }

  /** `--check`: nothing missing, and every file equal up to surrounding white space. */
  predicate InSync(site: Site, tree: Tree, blocks: seq<BlockDoc>) {
    && (forall path <- Paths(blocks) :: FileInSync(site, tree, blocks, path))
    && tree.overview.Some? && SameStripped(tree.overview.value, site.overview(blocks))
    && tree.summary.Some? && SameStripped(tree.summary.value, site.summary(blocks))
  }

  /** The documentation directory. */
  class DocTree {
    const site: Site
    var files: map<string, string>
    var overview: Option<string>
    var summary: Option<string>

    constructor (site: Site, tree: Tree)
      ensures Value() == tree && this.site == site
    {
      this.site := site;
      files, overview, summary := tree.files, tree.overview, tree.summary;
    }

    ghost function Value(): Tree
      reads this
    {
      Tree(files, overview, summary)
    }

    method Write(blocks: seq<BlockDoc>)
      modifies this
      ensures Value() == WriteDocs(site, old(Value()), blocks)
    {
      hide FileString, BlocksOf, Paths;
      var mapping := GetBlockFileMapping(blocks);
      var todo := mapping.Keys;
      ghost var before := Value();
      while todo != {}
        invariant todo <= mapping.Keys
        invariant overview == before.overview && summary == before.summary
        invariant files == Written(site, before, blocks, Paths(blocks) - todo)
        decreases todo
      {
        var path :| path in todo;
        var existing := if path in files then files[path] else "";
        assert path in Paths(blocks) && existing == Existing(before, path);
        var content := WriteFile(existing, site.title(path), mapping[path]);
        assert content == NewFile(site, before, blocks, path);
        WrittenGrows(site, before, blocks, Paths(blocks) - todo, path);
        assert Paths(blocks) - (todo - {path}) == Paths(blocks) - todo + {path};
        files := files[path := content];
        todo := todo - {path};
      }
      assert Paths(blocks) - todo == Paths(blocks);
      overview := Some(site.overview(blocks));
      summary := Some(site.summary(blocks));
    }

    method Check(blocks: seq<BlockDoc>) returns (allMatch: bool)
      ensures allMatch == InSync(site, Value(), blocks)
    {
      var mapping := GetBlockFileMapping(blocks);
      allMatch := true;
      var todo := mapping.Keys;
      while todo != {}
        invariant todo <= mapping.Keys
        invariant allMatch <==> forall path <- Paths(blocks) - todo :: FileInSync(site, Value(), blocks, path)
        decreases todo
      {
        var path :| path in todo;
        assert path in Paths(blocks);
        if path !in files {
          allMatch := false;
        } else {
          var expected := WriteFile(files[path], site.title(path), mapping[path]);
          assert expected == NewFile(site, Value(), blocks, path);
          if !SameStripped(files[path], expected) {
            allMatch := false;
          }
        }
        assert forall p :: p in Paths(blocks) - (todo - {path}) <==> p in Paths(blocks) - todo || p == path;
        todo := todo - {path};
      }
      assert Paths(blocks) - todo == Paths(blocks);
      allMatch := allMatch
                  && overview.Some? && SameStripped(overview.value, site.overview(blocks))
                  && summary.Some? && SameStripped(summary.value, site.summary(blocks));
    }
  }
}
