/**
 * The generator's regular expressions, as first-match scans over the lines of a text. Each scan
 * accepts exactly the places where the pattern matches: none of the fixed parts of a pattern
 * contains a newline except where stated, so a match lies on the lines a scan looks at.
 */
module DocReaders {
  import opened Prelude
  import opened DocText

  const OPEN := "<!-- MANUAL: "
  const ARROW := " -->"
  const CLOSE := "<!-- END MANUAL -->"
  const RULE := "---"

  type Section = (string, Text)

  function Marker(name: string): string {
    OPEN + name + ARROW
  }

  // ---------------------------------------------------------------- manual sections

  /** Word characters of a section name. */
  predicate IsWord(c: char) {
    'a' <= c <= 'z' || 'A' <= c <= 'Z' || '0' <= c <= '9' || c == '_'
  }

  function WordEnd(l: string, i: nat): (e: nat)
    requires i <= |l|
    ensures i <= e <= |l|
    decreases |l| - i
  {
    if i < |l| && IsWord(l[i]) then WordEnd(l, i + 1) else i
  }

  /** The first opening marker on a line: the section's name and where its marker ends. */
  function FindMarker(l: string, i: nat): (r: Option<(string, nat)>)
    ensures r.Some? ==> r.value.1 <= |l| && i < r.value.1
    decreases |l| - i
  {
    if i >= |l| then None
    else if StartsAt(l, i, OPEN) then
      var w := WordEnd(l, i + |OPEN|);
      if w > i + |OPEN| && StartsAt(l, w, ARROW) then Some((l[i + |OPEN|..w], w + |ARROW|))
      else FindMarker(l, i + 1)
    else FindMarker(l, i + 1)
  }

  /** The first closing marker: its line and column. */
  function FindClose(t: Text): (r: Option<(nat, nat)>)
    ensures r.Some? ==> r.value.0 < |t| && r.value.1 + |CLOSE| <= |t[r.value.0]|
  {
    if t == [] then None
    else
      match Find(t[0], CLOSE, 0)
      case Some(c) => Some((0, c))
      case None =>
        match FindClose(t[1..])
        case Some((j, c)) => Some((j + 1, c))
        case None => None
  }

  /** The sections of a text in order, each with its name and its stripped content. */
  function Sections(t: Text): seq<Section>
    decreases |t|, if t == [] then 0 else |t[0]|
  {
    if t == [] then []
    else
      match FindMarker(t[0], 0)
      case None => Sections(t[1..])
      case Some((name, e)) =>
        var rest := [t[0][e..]] + t[1..];
        match FindClose(rest)
        case None => []
        case Some((j, c)) =>
          var body := rest[..j] + [rest[j][..c]];
          var after := [rest[j][c + |CLOSE|..]] + rest[j + 1..];
          [(name, Strip(body))] + Sections(after)
  }

  /** A later section of the same name replaces an earlier one. */
  function ToMap(s: seq<Section>): map<string, Text> {
    if s == [] then map[] else ToMap(s[..|s| - 1])[s[|s| - 1].0 := s[|s| - 1].1]
  }

  function ManualContent(t: Text): map<string, Text> {
    ToMap(Sections(t))
  }

  // ---------------------------------------------------------------- the part of a block

  /** The rest of a heading line may only be white space. */
  predicate IsHeading(l: string, name: string) {
    StartsAt(l, 0, "## " + name) && Blank(l[3 + |name|..])
  }

  predicate IsRule(l: string) {
    StartsAt(l, 0, RULE)
  }

  function SkipBlank(t: Text): (r: Text)
    requires t != []
    ensures r != []
  {
    if |t| > 1 && Blank(t[0]) then SkipBlank(t[1..]) else t
  }

  function UntilRule(t: Text): Text {
    if t == [] || IsRule(t[0]) then [] else [t[0]] + UntilRule(t[1..])
  }

  /** From the first line with text after the block's heading to the next rule or the end. */
  function BlockPart(t: Text, name: string): Option<Text> {
    if t == [] then None
    else if IsHeading(t[0], name) && |t| > 1 then
      var u := SkipBlank(t[1..]);
      Some([u[0]] + UntilRule(u[1..]))
    else BlockPart(t[1..], name)
  }

  // ---------------------------------------------------------------- the file header

  const FILE_DESCRIPTION := "file_description"

  function UntilCloseLine(t: Text): Option<Text> {
    if t == [] then None
    else if StartsAt(t[0], 0, CLOSE) then Some([])
    else
      match UntilCloseLine(t[1..])
      case None => None
      case Some(u) => Some([t[0]] + u)
  }

  /** `allowed` says whether the title before this line has at least one character. */
  function DescriptionFrom(t: Text, allowed: bool): Option<Text> {
    if t == [] then None
    else if t[0] == Marker(FILE_DESCRIPTION) && allowed then
      if |t| == 1 then None
      else
        match UntilCloseLine(t[2..])
        case None => None
        case Some(u) => Some([t[1]] + u)
    else DescriptionFrom(t[1..], true)
  }

  function HeaderDescription(t: Text): Option<Text>
    requires t != []
  {
    if StartsAt(t[0], 0, "# ") then DescriptionFrom(t[1..], |t[0]| > 2) else None
  }

  // ---------------------------------------------------------------- scanning composed texts

  /** No section opens on the line. */
  predicate Quiet(l: string) {
    FindMarker(l, 0).None?
  }

  lemma FirstCharacter(l: string, p: string)
    requires p != ""
    ensures forall i: nat :: StartsAt(l, i, p) ==> l[i] == p[0]
  {
    forall i: nat | StartsAt(l, i, p)
      ensures l[i] == p[0]
    {
      assert l[i..i + |p|][0] == l[i];
    }
  }

  lemma {:induction false} QuietWithoutAngle(l: string, i: nat)
    requires '<' !in l
    ensures FindMarker(l, i).None?
    decreases |l| - i
  {
    if i >= |l| {
    } else {
      FirstCharacter(l, OPEN);
      QuietWithoutAngle(l, i + 1);
    }
  }

  lemma CloseIsQuiet()
    ensures Quiet(CLOSE)
  {
    assert CLOSE == "<!-- END" + " MANUAL -->";
    assert CLOSE[0..13][5] != OPEN[5];
    assert !StartsAt(CLOSE, 0, OPEN);
    CloseTail(1);
  }

  lemma {:induction false} CloseTail(i: nat)
    requires i > 0
    ensures FindMarker(CLOSE, i).None?
    decreases |CLOSE| - i
  {
    if i >= |CLOSE| {
    } else {
      assert CLOSE[i] != '<';
      FirstCharacter(CLOSE, OPEN);
      CloseTail(i + 1);
    }
  }

  lemma {:induction false} WordEndOf(l: string, i: nat, e: nat)
    requires i <= e <= |l|
    requires forall k :: i <= k < e ==> IsWord(l[k])
    requires e == |l| || !IsWord(l[e])
    ensures WordEnd(l, i) == e
    decreases e - i
  {
    if i >= e {
    } else {
      WordEndOf(l, i + 1, e);
    }
  }

  predicate IsName(name: string) {
    name != "" && forall c <- name :: IsWord(c)
  }

  lemma MarkerIsFound(name: string)
    requires IsName(name)
    ensures FindMarker(Marker(name), 0) == Some((name, |Marker(name)|))
  {
    var l := Marker(name);
    var e := |OPEN| + |name|;
    assert l[0..|OPEN|] == OPEN;
    assert l[|OPEN|..e] == name;
    assert forall k :: |OPEN| <= k < e ==> l[k] == name[k - |OPEN|];
    assert l[e..e + |ARROW|] == ARROW;
    assert l[e] == ' ';
    WordEndOf(l, |OPEN|, e);
  }

  lemma {:induction false} SectionsSkip(a: Text, rest: Text)
    requires forall l <- a :: Quiet(l)
    ensures Sections(a + rest) == Sections(rest)
  {
    if a == [] {
      assert a + rest == rest;
    } else {
      assert (a + rest)[1..] == a[1..] + rest;
      assert Quiet(a[0]);
      SectionsSkip(a[1..], rest);
    }
  }

  lemma {:induction false} CloseIsFound(a: Text, rest: Text)
    requires forall l <- a :: !Contains(l, CLOSE)
    ensures FindClose(a + [CLOSE] + rest) == Some((|a|, 0))
  {
    var t := a + [CLOSE] + rest;
    if a == [] {
      assert CLOSE[0..|CLOSE|] == CLOSE;
    } else {
      assert t[1..] == a[1..] + [CLOSE] + rest;
      assert !Contains(a[0], CLOSE);
      CloseIsFound(a[1..], rest);
    }
  }

  /** A section printed on lines of its own is read back, stripped. */
  lemma SectionsTake(name: string, body: Text, rest: Text)
    requires IsName(name) && body != []
    requires forall l <- body :: !Contains(l, CLOSE)
    ensures Sections([Marker(name)] + body + [CLOSE] + rest) == [(name, Strip([""] + body + [""]))] + Sections(rest)
  {
    var t := [Marker(name)] + body + [CLOSE] + rest;
    MarkerIsFound(name);
    var u := [t[0][|t[0]|..]] + t[1..];
    assert t[0] == Marker(name) && t[0][|t[0]|..] == "";
    assert t[1..] == body + [CLOSE] + rest;
    assert u == ([""] + body) + [CLOSE] + rest;
    assert !Contains("", CLOSE);
    CloseIsFound([""] + body, rest);
    var j := 1 + |body|;
    assert u[..j] + [u[j][..0]] == [""] + body + [""];
    assert u[j] == CLOSE && CLOSE[|CLOSE|..] == "";
    assert u[j + 1..] == rest;
    assert Quiet("");
    SectionsSkip([""], rest);
  }

  /** Text that a reader can have extracted: trimmed, and no closing marker in it. */
  predicate Clean(t: Text) {
    Trimmed(t) && forall l <- t :: !Contains(l, CLOSE)
  }

  lemma {:induction false} BeforeClose(t: Text)
    requires FindClose(t).Some?
    ensures var (j, c) := FindClose(t).value;
            forall l <- t[..j] + [t[j][..c]] :: !Contains(l, CLOSE)
  {
    match Find(t[0], CLOSE, 0)
    case Some(c) =>
      forall k: nat
        ensures !StartsAt(t[0][..c], k, CLOSE)
      {
        if StartsAt(t[0][..c], k, CLOSE) {
          assert t[0][..c][k..k + |CLOSE|] == t[0][k..k + |CLOSE|];
          assert StartsAt(t[0], k, CLOSE);
        }
      }
      assert !Contains(t[0][..c], CLOSE);
    case None =>
      BeforeClose(t[1..]);
      var (j, c) := FindClose(t[1..]).value;
      assert t[..j + 1] == [t[0]] + t[1..][..j];
      assert !Contains(t[0], CLOSE);
  }

  /** Everything the reader extracts is clean. */
  lemma {:induction false} SectionsAreClean(t: Text)
    ensures forall s <- Sections(t) :: Clean(s.1)
    decreases |t|, if t == [] then 0 else |t[0]|
  {
    if t == [] {
    } else {
      match FindMarker(t[0], 0)
      case None =>
        SectionsAreClean(t[1..]);
      case Some((name, e)) =>
        var rest := [t[0][e..]] + t[1..];
        match FindClose(rest)
        case None =>
        case Some((j, c)) =>
          BeforeClose(rest);
          var body := rest[..j] + [rest[j][..c]];
          StripTrims(body);
          TrimFrontContains(body, CLOSE);
          TrimBackContains(TrimFront(body), CLOSE);
          SectionsAreClean([rest[j][c + |CLOSE|..]] + rest[j + 1..]);
    }
  }

  lemma {:induction false} MapIsClean(s: seq<Section>)
    requires forall x <- s :: Clean(x.1)
    ensures forall k <- ToMap(s) :: Clean(ToMap(s)[k])
  {
    if s == [] {
    } else {
      MapIsClean(s[..|s| - 1]);
    }
  }

  lemma ManualIsClean(t: Text)
    ensures forall k <- ManualContent(t) :: Clean(ManualContent(t)[k])
  {
    SectionsAreClean(t);
    MapIsClean(Sections(t));
  }

  // ---------------------------------------------------------------- what is read are lines

  lemma BodyIsLines(t: Text, j: nat, c: nat)
    requires AreLines(t) && j < |t| && c + |CLOSE| <= |t[j]|
    ensures AreLines(t[..j] + [t[j][..c]]) && AreLines([t[j][c + |CLOSE|..]] + t[j + 1..])
  {
    assert IsLine(t[j]);
  }

  lemma RestIsLines(t: Text, e: nat)
    requires t != [] && AreLines(t) && e <= |t[0]|
    ensures AreLines(t[1..]) && AreLines([t[0][e..]] + t[1..])
  {
    assert IsLine(t[0]);
  }

  lemma {:induction false} SectionsAreLines(t: Text)
    requires AreLines(t)
    ensures forall s <- Sections(t) :: AreLines(s.1)
    decreases |t|, if t == [] then 0 else |t[0]|
  {
    if t == [] {
    } else {
      hide Strip, FindMarker, FindClose, IsLine, AreLines;
      match FindMarker(t[0], 0)
      case None =>
        RestIsLines(t, 0);
        SectionsAreLines(t[1..]);
      case Some((name, e)) =>
        var rest := [t[0][e..]] + t[1..];
        RestIsLines(t, e);
        match FindClose(rest)
        case None =>
        case Some((j, c)) =>
          BodyIsLines(rest, j, c);
          StripIsLines(rest[..j] + [rest[j][..c]]);
          SectionsAreLines([rest[j][c + |CLOSE|..]] + rest[j + 1..]);
    }
  }

  lemma {:induction false} MapIsLines(s: seq<Section>)
    requires forall x <- s :: AreLines(x.1)
    ensures forall k <- ToMap(s) :: AreLines(ToMap(s)[k])
  {
    if s == [] {
    } else {
      MapIsLines(s[..|s| - 1]);
    }
  }

  lemma ManualIsLines(t: Text)
    requires AreLines(t)
    ensures forall k <- ManualContent(t) :: AreLines(ManualContent(t)[k])
  {
    SectionsAreLines(t);
    MapIsLines(Sections(t));
  }

  lemma {:induction false} UntilRuleIsPrefix(t: Text)
    ensures UntilRule(t) <= t
  {
    if t == [] || IsRule(t[0]) {
    } else {
      UntilRuleIsPrefix(t[1..]);
    }
  }

  lemma {:induction false} SkipBlankIsLines(t: Text)
    requires t != [] && AreLines(t)
    ensures AreLines(SkipBlank(t))
  {
    if |t| == 1 || !Blank(t[0]) {
    } else {
      SkipBlankIsLines(t[1..]);
    }
  }

  lemma {:induction false} PartIsLines(t: Text, name: string)
    requires AreLines(t) && BlockPart(t, name).Some?
    ensures AreLines(BlockPart(t, name).value)
  {
    if IsHeading(t[0], name) && |t| > 1 {
      SkipBlankIsLines(t[1..]);
      var u := SkipBlank(t[1..]);
      UntilRuleIsPrefix(u[1..]);
      assert u[0] in u;
    } else {
      PartIsLines(t[1..], name);
    }
  }

  lemma {:induction false} UntilCloseIsLines(t: Text)
    requires AreLines(t) && UntilCloseLine(t).Some?
    ensures AreLines(UntilCloseLine(t).value)
  {
    if StartsAt(t[0], 0, CLOSE) {
    } else {
      UntilCloseIsLines(t[1..]);
    }
  }

  lemma {:induction false} DescriptionIsLines(t: Text, allowed: bool)
    requires AreLines(t) && DescriptionFrom(t, allowed).Some?
    ensures DescriptionFrom(t, allowed).value != [] && AreLines(DescriptionFrom(t, allowed).value)
  {
    if t[0] == Marker(FILE_DESCRIPTION) && allowed {
      UntilCloseIsLines(t[2..]);
      assert t[1] in t;
    } else {
      DescriptionIsLines(t[1..], true);
    }
  }

  lemma HeaderIsLines(t: Text)
    requires t != [] && AreLines(t) && HeaderDescription(t).Some?
    ensures HeaderDescription(t).value != [] && AreLines(HeaderDescription(t).value)
  {
    DescriptionIsLines(t[1..], |t[0]| > 2);
  }

  // ---------------------------------------------------------------- finding what was printed

  lemma {:induction false} PartAfter(pre: Text, t: Text, name: string)
    requires forall l <- pre :: !IsHeading(l, name)
    ensures BlockPart(pre + t, name) == BlockPart(t, name)
  {
    if pre == [] {
      assert pre + t == t;
    } else {
      assert (pre + t)[1..] == pre[1..] + t;
      PartAfter(pre[1..], t, name);
    }
  }

  lemma {:induction false} CloseLineEnds(a: Text, rest: Text)
    requires forall l <- a :: !Contains(l, CLOSE)
    ensures UntilCloseLine(a + [CLOSE] + rest) == Some(a)
  {
    var t := a + [CLOSE] + rest;
    if a == [] {
      assert CLOSE[0..|CLOSE|] == CLOSE;
    } else {
      assert t[1..] == a[1..] + [CLOSE] + rest;
      assert !Contains(a[0], CLOSE);
      assert !StartsAt(a[0], 0, CLOSE);
      CloseLineEnds(a[1..], rest);
      assert [a[0]] + a[1..] == a;
    }
  }

  /** A printed file header gives its description back, untrimmed. */
  lemma HeaderIsFound(title: string, body: Text, rest: Text)
    requires title != "" && body != []
    requires forall l <- body :: !Contains(l, CLOSE)
    ensures HeaderDescription(["# " + title, Marker(FILE_DESCRIPTION)] + body + [CLOSE] + rest) == Some(body)
  {
    var t := ["# " + title, Marker(FILE_DESCRIPTION)] + body + [CLOSE] + rest;
    assert t[0][0..2] == "# ";
    assert t[1..] == [Marker(FILE_DESCRIPTION)] + body + [CLOSE] + rest;
    assert t[1..][2..] == body[1..] + [CLOSE] + rest;
    CloseLineEnds(body[1..], rest);
    assert [body[0]] + body[1..] == body;
  }

  lemma {:induction false} UntilRuleAfter(a: Text, rest: Text)
    requires forall l <- a :: !IsRule(l)
    ensures UntilRule(a + rest) == a + UntilRule(rest)
  {
    if a == [] {
      assert a + rest == rest;
    } else {
      assert (a + rest)[1..] == a[1..] + rest;
      UntilRuleAfter(a[1..], rest);
    }
  }

  /** Where the part of a block starts, whatever follows. */
  lemma PartStartsAt(pre: Text, name: string, body: Text)
    requires forall l <- pre :: !IsHeading(l, name)
    requires body != [] && !Blank(body[0]) && !IsRule(body[0])
    ensures BlockPart(pre + (["## " + name, ""] + body), name) == Some(UntilRule(body))
  {
    var h := "## " + name;
    var t := [h, ""] + body;
    PartAfter(pre, t, name);
    assert h[0..|h|] == h && h[3 + |name|..] == "";
    assert t[1..] == [""] + body;
    assert ([""] + body)[1..] == body;
    assert SkipBlank([""] + body) == SkipBlank(body) == body;
  }

  lemma {:induction false} NoCloseFound(t: Text)
    requires forall l <- t :: !Contains(l, CLOSE)
    ensures FindClose(t).None?
  {
    if t == [] {
    } else {
      assert !Contains(t[0], CLOSE);
      NoCloseFound(t[1..]);
    }
  }

  /** A section whose closing marker is missing is not read, nor is anything after it. */
  lemma UnclosedIsLost(name: string, body: Text)
    requires IsName(name) && forall l <- body :: !Contains(l, CLOSE)
    ensures Sections([Marker(name)] + body) == []
  {
    var t := [Marker(name)] + body;
    MarkerIsFound(name);
    assert t[0] == Marker(name) && t[0][|t[0]|..] == "" && t[1..] == body;
    assert !Contains("", CLOSE);
    NoCloseFound([""] + body);
  }

  lemma {:induction false} KeyOfSection(s: seq<Section>, k: nat)
    requires k < |s|
    ensures s[k].0 in ToMap(s)
  {
    if k == |s| - 1 {
    } else {
      KeyOfSection(s[..|s| - 1], k);
    }
  }
}
