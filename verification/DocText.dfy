/**
 * Text as the documentation generator sees it. A text is the non-empty sequence of its lines, the
 * pieces between newline characters; `JoinSplit` and `SplitJoin` say that nothing is lost by this.
 */
module DocText {
  import opened Prelude

  type Text = seq<string>

  const EMPTY_TEXT: Text := [""]

  // ---------------------------------------------------------------- lines and strings

  function Join(t: Text): string
    requires t != []
  {
    if |t| == 1 then t[0] else t[0] + "\n" + Join(t[1..])
  }

  /** The text with one more character in front. */
  function Push(c: char, t: Text): (r: Text)
    requires t != []
    ensures r != []
  {
    if c == '\n' then [""] + t else [[c] + t[0]] + t[1..]
  }

  function Split(s: string): (t: Text)
    ensures t != []
  {
    if s == "" then [""] else Push(s[0], Split(s[1..]))
  }

  lemma {:induction false} JoinMore(a: Text, b: Text)
    requires a != [] && b != []
    ensures Join(a + b) == Join(a) + "\n" + Join(b)
  {
    assert (a + b)[1..] == a[1..] + b;
    if |a| == 1 {
      assert a[1..] + b == b;
    } else {
      JoinMore(a[1..], b);
    }
  }

  lemma JoinPush(c: char, t: Text)
    requires t != []
    ensures Join(Push(c, t)) == [c] + Join(t)
  {
    if c == '\n' {
      JoinMore([""], t);
    } else {
      assert ([[c] + t[0]] + t[1..])[1..] == t[1..];
    }
  }

  lemma {:induction false} JoinSplit(s: string)
    ensures Join(Split(s)) == s
  {
    if s == "" {
    } else {
      JoinSplit(s[1..]);
      JoinPush(s[0], Split(s[1..]));
    }
  }

  lemma PushMore(c: char, a: Text, b: Text)
    requires a != []
    ensures Push(c, a + b) == Push(c, a) + b
  {
  }

  lemma {:induction false} SplitMore(a: string, b: string)
    ensures Split(a + "\n" + b) == Split(a) + Split(b)
  {
    var ab := a + "\n" + b;
    if a == "" {
      assert ab[1..] == b;
    } else {
      hide Push;
      SplitMore(a[1..], b);
      assert ab[1..] == a[1..] + "\n" + b;
      PushMore(a[0], Split(a[1..]), Split(b));
    }
  }

  lemma {:induction false} SplitLine(l: string)
    requires '\n' !in l
    ensures Split(l) == [l]
  {
    if l == "" {
    } else {
      SplitLine(l[1..]);
      assert [l[0]] + l[1..] == l;
    }
  }

  lemma {:induction false} SplitJoin(t: Text)
    requires t != [] && forall l <- t :: '\n' !in l
    ensures Split(Join(t)) == t
  {
    SplitLine(t[0]);
    if |t| == 1 {
    } else {
      SplitJoin(t[1..]);
      SplitMore(t[0], Join(t[1..]));
    }
  }

  lemma {:induction false} SplitHasNo(s: string, c: char)
    requires c == '\n' || c !in s
    ensures forall l <- Split(s) :: c !in l
  {
    if s == "" {
    } else {
      SplitHasNo(s[1..], c);
    }
  }

  lemma {:induction false} JoinHasNo(t: Text, c: char)
    requires t != [] && c != '\n' && forall l <- t :: c !in l
    ensures c !in Join(t)
  {
    if |t| == 1 {
    } else {
      JoinHasNo(t[1..], c);
    }
  }

  // ---------------------------------------------------------------- files

  /** Python reads a file with universal newlines: a carriage return becomes a newline, alone or before one. */
  function ReadText(s: string): (r: string)
    ensures '\r' !in r
    ensures '\r' !in s ==> r == s
  {
    if s == "" then ""
    else if s[0] == '\r' && |s| > 1 && s[1] == '\n' then ReadText(s[1..])
    else [if s[0] == '\r' then '\n' else s[0]] + ReadText(s[1..])
  }

  /** A line that comes back from a file as it was written. */
  predicate IsLine(l: string) {
    '\n' !in l && '\r' !in l
  }

  predicate AreLines(t: Text) {
    forall l <- t :: IsLine(l)
  }

  /** The text that is read from a file with this content. */
  function Lines(content: string): (t: Text)
    ensures t != [] && AreLines(t)
  {
    SplitHasNo(ReadText(content), '\n');
    SplitHasNo(ReadText(content), '\r');
    Split(ReadText(content))
  }

  lemma WrittenIsRead(t: Text)
    requires t != [] && AreLines(t)
    ensures Lines(Join(t)) == t
  {
    JoinHasNo(t, '\r');
    SplitJoin(t);
  }

  // ---------------------------------------------------------------- white space

  /** The characters that Python's `\s` and `str.strip` treat as white space. */
  predicate IsSpace(c: char) {
    || 9 as char <= c <= 13 as char
    || 28 as char <= c <= 32 as char
    || c == 0x85 as char || c == 0xA0 as char || c == 0x1680 as char
    || 0x2000 as char <= c <= 0x200A as char
    || c == 0x2028 as char || c == 0x2029 as char || c == 0x202F as char || c == 0x205F as char || c == 0x3000 as char
  }

  predicate Blank(l: string) {
    forall c <- l :: IsSpace(c)
  }

  function TrimLeft(l: string): (r: string)
    ensures r == "" || !IsSpace(r[0])
    ensures r == "" <==> Blank(l)
    ensures |r| <= |l| && r == l[|l| - |r|..]
  {
    if l == "" then "" else if IsSpace(l[0]) then assert l == [l[0]] + l[1..]; TrimLeft(l[1..]) else l
  }

  function TrimRight(l: string): (r: string)
    ensures r == "" || !IsSpace(r[|r| - 1])
    ensures r == "" <==> Blank(l)
    ensures l != "" && !IsSpace(l[0]) ==> r != "" && r[0] == l[0]
    ensures |r| <= |l| && r == l[..|r|]
  {
    if l == "" then ""
    else if IsSpace(l[|l| - 1]) then assert l == l[..|l| - 1] + [l[|l| - 1]]; TrimRight(l[..|l| - 1])
    else l
  }

  function TrimFront(t: Text): (r: Text)
    requires t != []
    ensures r != []
  {
    if |t| > 1 && Blank(t[0]) then TrimFront(t[1..]) else [TrimLeft(t[0])] + t[1..]
  }

  function TrimBack(t: Text): (r: Text)
    requires t != []
    ensures r != []
  {
    if |t| > 1 && Blank(t[|t| - 1]) then TrimBack(t[..|t| - 1]) else t[..|t| - 1] + [TrimRight(t[|t| - 1])]
  }

  /** `str.strip`. */
  function Strip(t: Text): (r: Text)
    requires t != []
    ensures r != []
  {
    TrimBack(TrimFront(t))
  }

  /** Neither end of the text is white space. */
  predicate Trimmed(t: Text) {
    && t != []
    && (t == EMPTY_TEXT
        || (t[0] != "" && !IsSpace(t[0][0]) && t[|t| - 1] != "" && !IsSpace(t[|t| - 1][|t[|t| - 1]| - 1])))
  }

  lemma {:induction false} TrimFrontStarts(t: Text)
    requires t != []
    ensures var r := TrimFront(t); r == EMPTY_TEXT || (r[0] != "" && !IsSpace(r[0][0]))
  {
    if |t| == 1 || !Blank(t[0]) {
    } else {
      TrimFrontStarts(t[1..]);
    }
  }

  lemma {:induction false} TrimBackTrims(t: Text)
    requires t == EMPTY_TEXT || (t != [] && t[0] != "" && !IsSpace(t[0][0]))
    ensures Trimmed(TrimBack(t))
  {
    if |t| == 1 || !Blank(t[|t| - 1]) {
    } else {
      TrimBackTrims(t[..|t| - 1]);
    }
  }

  lemma StripTrims(t: Text)
    requires t != []
    ensures Trimmed(Strip(t))
  {
    TrimFrontStarts(t);
    TrimBackTrims(TrimFront(t));
  }

  lemma TrimmedEnds(t: Text)
    requires Trimmed(t)
    ensures TrimLeft(t[0]) == t[0] && TrimRight(t[|t| - 1]) == t[|t| - 1]
    ensures t != EMPTY_TEXT ==> !Blank(t[0]) && !Blank(t[|t| - 1])
  {
  }

  lemma FrontIs(t: Text)
    requires t != [] && (|t| == 1 || !Blank(t[0]))
    ensures TrimFront(t) == [TrimLeft(t[0])] + t[1..]
  {
    hide Blank, TrimLeft;
  }

  lemma FrontStays(t: Text)
    requires t != [] && (|t| == 1 || !Blank(t[0])) && TrimLeft(t[0]) == t[0]
    ensures TrimFront(t) == t
  {
    hide *;
    FrontIs(t);
    assert [t[0]] + t[1..] == t;
  }

  lemma BackStays(t: Text)
    requires t != [] && (|t| == 1 || !Blank(t[|t| - 1])) && TrimRight(t[|t| - 1]) == t[|t| - 1]
    ensures TrimBack(t) == t
  {
    hide Blank, TrimRight;
    assert t[..|t| - 1] + [t[|t| - 1]] == t;
  }

  lemma FrontGoes(t: Text)
    requires t != []
    ensures TrimFront([""] + t) == TrimFront(t)
  {
    assert ([""] + t)[1..] == t;
  }

  lemma BackGoes(t: Text)
    requires t != []
    ensures TrimBack(t + [""]) == TrimBack(t)
  {
    assert (t + [""])[..|t|] == t;
  }

  /** Stripping undoes surrounding blank lines and leaves trimmed text alone. */
  lemma StripFixed(t: Text)
    requires Trimmed(t)
    ensures Strip(t) == t
    ensures Strip([""] + t + [""]) == t
  {
    TrimmedEnds(t);
    FrontStays(t);
    BackStays(t);
    assert [""] + t + [""] == [""] + (t + [""]);
    FrontGoes(t + [""]);
    if t == EMPTY_TEXT {
      assert t + [""] == [""] + t;
      FrontGoes(t);
    } else {
      hide Blank, Trimmed, TrimLeft, TrimRight, TrimBack;
      FrontStays(t + [""]);
      BackGoes(t);
    }
  }

  lemma {:induction false} TrimFrontIsLines(t: Text)
    requires t != [] && AreLines(t)
    ensures AreLines(TrimFront(t))
  {
    if |t| > 1 && Blank(t[0]) {
      TrimFrontIsLines(t[1..]);
    } else {
      assert t[0] in t;
    }
  }

  lemma {:induction false} TrimBackIsLines(t: Text)
    requires t != [] && AreLines(t)
    ensures AreLines(TrimBack(t))
  {
    var n := |t| - 1;
    if |t| > 1 && Blank(t[n]) {
      TrimBackIsLines(t[..n]);
    } else {
      assert t[n] in t;
    }
  }

  lemma StripIsLines(t: Text)
    requires t != [] && AreLines(t)
    ensures AreLines(Strip(t))
  {
    TrimFrontIsLines(t);
    TrimBackIsLines(TrimFront(t));
  }

  /** Stripping keeps everything between the first line and a later one with text. */
  lemma {:induction false} TrimBackKeeps(a: Text, l: string, rest: Text)
    requires !Blank(l)
    ensures a <= TrimBack(a + [l] + rest)
  {
    var t := a + [l] + rest;
    var n := |t| - 1;
    if rest == [] {
      assert t[..n] == a;
    } else if Blank(t[n]) {
      assert t[..n] == a + [l] + rest[..|rest| - 1];
      TrimBackKeeps(a, l, rest[..|rest| - 1]);
    }
  }

  lemma StripKeeps(first: string, a: Text, l: string, rest: Text)
    requires first != "" && !IsSpace(first[0]) && !Blank(l)
    ensures [first] + a <= Strip([first] + a + [l] + rest)
  {
    var t := [first] + a + [l] + rest;
    assert first[0] in first;
    assert TrimLeft(first) == first;
    assert TrimFront(t) == [first] + t[1..] == t;
    TrimBackKeeps([first] + a, l, rest);
  }

  // ---------------------------------------------------------------- a page read and stripped

  predicate HasReturn(t: Text) {
    exists l <- t :: '\r' in l
  }

  lemma {:induction false} ReturnIsJoined(t: Text)
    requires t != []
    ensures HasReturn(t) <==> '\r' in Join(t)
  {
    if |t| == 1 {
    } else {
      ReturnIsJoined(t[1..]);
      assert t == [t[0]] + t[1..];
    }
  }

  lemma PushGoes(c: char, t: Text)
    requires t != [] && IsSpace(c)
    ensures TrimFront(Push(c, t)) == TrimFront(t)
  {
    if c == '\n' {
      FrontGoes(t);
    } else {
      var u := [c] + t[0];
      assert u[0] == c && u[1..] == t[0];
      assert Blank(u) <==> Blank(t[0]) by {
        assert u == [c] + t[0];
      }
      assert Push(c, t)[1..] == t[1..];
      hide IsSpace, Blank;
    }
  }

  lemma SplitPush(c: char, s: string)
    ensures Split([c] + s) == Push(c, Split(s))
  {
    assert ([c] + s)[1..] == s;
  }

  lemma PushStrips(c: char, t: Text)
    requires t != [] && IsSpace(c)
    ensures Strip(Push(c, t)) == Strip(t)
  {
    PushGoes(c, t);
  }

  lemma BlankParts(w: string)
    requires w != "" && Blank(w)
    ensures IsSpace(w[0]) && Blank(w[1..]) && IsSpace(w[|w| - 1]) && Blank(w[..|w| - 1])
  {
    assert w[0] in w && w[|w| - 1] in w;
    hide IsSpace;
  }

  lemma {:induction false} SpaceBefore(w: string, s: string)
    requires Blank(w)
    ensures Strip(Split(w + s)) == Strip(Split(s))
  {
    hide *;
    if w == "" {
      assert w + s == s;
    } else {
      BlankParts(w);
      SpaceBefore(w[1..], s);
      assert w + s == [w[0]] + (w[1..] + s);
      SplitPush(w[0], w[1..] + s);
      PushStrips(w[0], Split(w[1..] + s));
    }
  }

  /** The last line, longer or followed by an empty one. */
  function Append(t: Text, c: char): (r: Text)
    requires t != []
    ensures r != []
  {
    if c == '\n' then t + [""] else t[..|t| - 1] + [t[|t| - 1] + [c]]
  }

  lemma PushAppend(x: char, t: Text, c: char)
    requires t != []
    ensures Push(x, Append(t, c)) == Append(Push(x, t), c)
  {
    if x != '\n' && c != '\n' && |t| == 1 {
      assert [x] + (t[0] + [c]) == [x] + t[0] + [c];
    }
  }

  lemma OneCharacter(c: char)
    ensures Split([c]) == Append([""], c)
  {
    assert [c][1..] == "" && [c] + "" == "" + [c];
  }

  lemma {:induction false} SplitAppend(s: string, c: char)
    ensures Split(s + [c]) == Append(Split(s), c)
  {
    if s == "" {
      OneCharacter(c);
      assert s + [c] == [c];
    } else {
      SplitAppend(s[1..], c);
      PushAppend(s[0], Split(s[1..]), c);
      assert s + [c] == [s[0]] + (s[1..] + [c]);
      SplitPush(s[0], s[1..] + [c]);
      hide Append, Push;
    }
  }

  lemma TrimRightGoes(l: string, c: char)
    requires IsSpace(c)
    ensures TrimRight(l + [c]) == TrimRight(l) && (Blank(l + [c]) <==> Blank(l))
  {
    assert (l + [c])[..|l|] == l;
  }

  lemma TrimLeftAppend(l: string, c: char)
    requires IsSpace(c)
    ensures TrimLeft(l + [c]) == if Blank(l) then "" else TrimLeft(l) + [c]
  {
    TrimRightGoes(l, c);
    if !Blank(l) {
      TrimLeftMore(l, c);
    }
  }

  lemma {:induction false} TrimLeftMore(l: string, c: char)
    requires !Blank(l)
    ensures TrimLeft(l + [c]) == TrimLeft(l) + [c]
  {
    assert (l + [c])[1..] == l[1..] + [c];
    if IsSpace(l[0]) {
      assert l == [l[0]] + l[1..];
      TrimLeftMore(l[1..], c);
    }
  }

  lemma {:induction false} BlankText(t: Text)
    requires t != [] && forall l <- t :: Blank(l)
    ensures TrimFront(t) == [""]
  {
    if |t| == 1 {
      assert t[0] in t;
    } else {
      BlankText(t[1..]);
    }
  }

  lemma AppendParts(t: Text, c: char)
    requires t != []
    ensures var u := Append(t, c);
            && |t| <= |u| && (|t| > 1 ==> u[0] == t[0] && u[1..] == Append(t[1..], c) && |u| > 1)
            && (|t| == 1 ==> u == if c == '\n' then t + [""] else [t[0] + [c]])
  {
  }

  lemma FrontOfOne(l: string)
    ensures TrimFront([l]) == [TrimLeft(l)]
  {
    hide TrimLeft, Blank;
  }

  lemma FrontOfTwo(l: string)
    requires !Blank(l)
    ensures TrimFront([l, ""]) == [TrimLeft(l), ""]
  {
    hide TrimLeft, Blank;
    assert [l, ""][1..] == [""];
  }

  lemma AppendToOne(l: string, c: char)
    ensures Append([l], c) == if c == '\n' then [l, ""] else [l + [c]]
  {
  }

  lemma OneLineAppend(l: string, c: char)
    requires IsSpace(c) && !Blank(l)
    ensures TrimFront(Append([l], c)) == Append(TrimFront([l]), c)
  {
    hide *;
    AppendToOne(l, c);
    AppendToOne(TrimLeft(l), c);
    FrontOfOne(l);
    if c == '\n' {
      FrontOfTwo(l);
    } else {
      TrimLeftAppend(l, c);
      FrontOfOne(l + [c]);
    }
  }

  lemma {:induction false} TrimFrontAppend(t: Text, c: char)
    requires t != [] && IsSpace(c)
    requires exists l <- t :: !Blank(l)
    ensures TrimFront(Append(t, c)) == Append(TrimFront(t), c)
  {
    hide IsSpace, Blank, TrimLeft, Append;
    AppendParts(t, c);
    if |t| == 1 {
      assert t == [t[0]];
      OneLineAppend(t[0], c);
    } else if Blank(t[0]) {
      assert t == [t[0]] + t[1..];
      TrimFrontAppend(t[1..], c);
    } else {
      TrimmedAppend(TrimLeft(t[0]), t[1..], c);
    }
  }

  lemma TrimmedAppend(l: string, t: Text, c: char)
    requires t != []
    ensures [l] + Append(t, c) == Append([l] + t, c)
  {
  }

  lemma TrimBackAppend(t: Text, c: char)
    requires t != [] && IsSpace(c)
    ensures TrimBack(Append(t, c)) == TrimBack(t)
  {
    if c == '\n' {
      BackGoes(t);
    } else {
      var u, n := Append(t, c), |t| - 1;
      TrimRightGoes(t[n], c);
      assert u[..n] == t[..n] && u[n] == t[n] + [c];
    }
  }

  lemma AppendGoes(t: Text, c: char)
    requires t != [] && IsSpace(c)
    ensures Strip(Append(t, c)) == Strip(t)
  {
    if exists l <- t :: !Blank(l) {
      TrimFrontAppend(t, c);
      TrimBackAppend(TrimFront(t), c);
    } else {
      TrimRightGoes(t[|t| - 1], c);
      assert Blank("");
      BlankText(t);
      BlankText(Append(t, c));
    }
  }

  lemma {:induction false} SpaceAfter(s: string, w: string)
    requires Blank(w)
    ensures Strip(Split(s + w)) == Strip(Split(s))
  {
    hide *;
    if w == "" {
      assert s + w == s;
    } else {
      var n := |w| - 1;
      BlankParts(w);
      SpaceAfter(s, w[..n]);
      assert s + w == (s + w[..n]) + [w[n]];
      SplitAppend(s + w[..n], w[n]);
      AppendGoes(Split(s + w[..n]), w[n]);
    }
  }

  lemma {:induction false} ReadMore(a: string, b: string)
    requires b == "" || b[0] != '\n'
    ensures ReadText(a + b) == ReadText(a) + ReadText(b)
  {
    if a == "" {
      assert a + b == b;
    } else {
      assert (a + b)[1..] == a[1..] + b;
      ReadMore(a[1..], b);
    }
  }

  lemma {:induction false} ReadBlank(w: string)
    requires Blank(w)
    ensures Blank(ReadText(w))
  {
    if w == "" {
    } else {
      assert w == [w[0]] + w[1..];
      ReadBlank(w[1..]);
      assert IsSpace('\n') && IsSpace(w[0]);
      hide IsSpace;
    }
  }

  /** White space, a text that neither begins nor ends with any, and white space again. */
  lemma {:induction false} Inside(s: string) returns (before: string, core: string, after: string)
    ensures s == before + core + after && Blank(before) && Blank(after)
    ensures core == "" || (!IsSpace(core[0]) && !IsSpace(core[|core| - 1]))
    ensures core == "" ==> before == ""
  {
    hide IsSpace;
    if s == "" {
      before, core, after := "", "", "";
    } else {
      var n := |s| - 1;
      if IsSpace(s[n]) {
        before, core, after := Inside(s[..n]);
        after := after + [s[n]];
        assert s == before + core + after;
      } else if IsSpace(s[0]) {
        before, core, after := Inside(s[1..]);
        before := [s[0]] + before;
        assert s == before + core + after;
      } else {
        before, core, after := "", s, "";
      }
    }
  }

  lemma NewlineIsSpace()
    ensures IsSpace('\n')
  {
  }

  lemma EndsAreTrimmed(t: Text)
    requires t != [] && t[0] != "" && !IsSpace(t[0][0])
    requires var l := t[|t| - 1]; l != "" && !IsSpace(l[|l| - 1])
    ensures Trimmed(t)
  {
    hide IsSpace;
  }

  lemma NothingIsTrimmed()
    ensures Trimmed(Split(""))
  {
    hide IsSpace;
  }

  lemma CoreIsTrimmed(core: string)
    requires core == "" || (!IsSpace(core[0]) && !IsSpace(core[|core| - 1]))
    ensures Strip(Split(core)) == Split(core)
  {
    hide *;
    if core == "" {
      NothingIsTrimmed();
    } else {
      NewlineIsSpace();
      FirstLineStarts(core);
      LastLineEnds(core);
      EndsAreTrimmed(Split(core));
    }
    StripFixed(Split(core));
  }

  lemma FirstLineStarts(s: string)
    requires s != "" && s[0] != '\n'
    ensures Split(s)[0] != "" && Split(s)[0][0] == s[0]
  {
  }

  lemma LastLineEnds(s: string)
    requires s != "" && s[|s| - 1] != '\n'
    ensures var l := Split(s)[|Split(s)| - 1]; l != "" && l[|l| - 1] == s[|s| - 1]
  {
    var n := |s| - 1;
    assert s == s[..n] + [s[n]];
    SplitAppend(s[..n], s[n]);
  }

  /**
   * A page is read back as it was written, up to surrounding white space, if and only if no
   * carriage return is inside.
   */
  lemma PageIsReadIff(page: string)
    ensures Strip(Lines(page)) == Strip(Split(page)) <==> !HasReturn(Strip(Split(page)))
  {
    if HasReturn(Strip(Split(page))) {
      StripIsLines(Lines(page));
      hide Strip, Split, Lines;
    } else {
      PlainPageIsRead(page);
    }
  }

  lemma LinesOf(page: string)
    ensures Lines(page) == Split(ReadText(page))
  {
  }

  lemma PlainPageIsRead(page: string)
    requires !HasReturn(Strip(Split(page)))
    ensures Strip(Lines(page)) == Strip(Split(page))
  {
    hide *;
    NewlineIsSpace();
    LinesOf(page);
    var w, core, z := Inside(page);
    CoreIsTrimmed(core);
    assert w + core + z == w + (core + z);
    SpaceBefore(w, core + z);
    SpaceAfter(core, z);
    ReturnIsJoined(Split(core));
    JoinSplit(core);
    ReadBlank(w);
    ReadBlank(z);
    PageParts(w, core, z);
    SpaceBefore(ReadText(w), core + ReadText(z));
    SpaceAfter(core, ReadText(z));
  }

  lemma PageParts(w: string, core: string, z: string)
    requires '\r' !in core && (if core == "" then w == "" else core[0] != '\n')
    ensures ReadText(w + (core + z)) == ReadText(w) + (core + ReadText(z))
  {
    ReadPlain(core, z);
    if core == "" {
      assert w + (core + z) == z;
    } else {
      ReadMore(w, core + z);
    }
  }

  lemma ReadStep(s: string)
    requires s != "" && s[0] != '\r'
    ensures ReadText(s) == [s[0]] + ReadText(s[1..])
  {
  }

  lemma {:induction false} ReadPlain(core: string, z: string)
    requires '\r' !in core
    ensures ReadText(core + z) == core + ReadText(z)
  {
    hide ReadText;
    if core == "" {
      assert core + z == z;
    } else {
      ReadPlain(core[1..], z);
      ReadStep(core + z);
      assert (core + z)[1..] == core[1..] + z;
      assert [core[0]] + (core[1..] + ReadText(z)) == core + ReadText(z);
    }
  }

  // ---------------------------------------------------------------- first matches

  predicate StartsAt(s: string, i: nat, p: string) {
    i + |p| <= |s| && s[i..i + |p|] == p
  }

  /** The first position at or after `i` where `p` occurs. */
  function Find(s: string, p: string, i: nat): (r: Option<nat>)
    ensures r.Some? ==> i <= r.value && StartsAt(s, r.value, p) && forall k :: i <= k < r.value ==> !StartsAt(s, k, p)
    ensures r.None? ==> forall k :: i <= k ==> !StartsAt(s, k, p)
    decreases |s| - i
  {
    if StartsAt(s, i, p) then Some(i) else if i >= |s| then None else Find(s, p, i + 1)
  }

  predicate Contains(s: string, p: string) {
    Find(s, p, 0).Some?
  }

  lemma PartStarts(l: string, a: nat, b: nat, k: nat, p: string)
    requires a <= b <= |l| && StartsAt(l[a..b], k, p)
    ensures StartsAt(l, a + k, p)
  {
    assert forall i :: 0 <= i < |p| ==> p[i] == l[a..b][k..k + |p|][i] == l[a..b][k + i] == l[a + k + i];
  }

  lemma PartContains(l: string, a: nat, b: nat, p: string)
    requires a <= b <= |l| && !Contains(l, p)
    ensures !Contains(l[a..b], p)
  {
    forall k: nat | StartsAt(l[a..b], k, p)
      ensures StartsAt(l, a + k, p)
    {
      PartStarts(l, a, b, k, p);
    }
  }

  lemma {:induction false} TrimLeftContains(l: string, p: string)
    requires !Contains(l, p)
    ensures !Contains(TrimLeft(l), p)
  {
    if l == "" || !IsSpace(l[0]) {
    } else {
      PartContains(l, 1, |l|, p);
      assert l[1..|l|] == l[1..];
      TrimLeftContains(l[1..], p);
    }
  }

  lemma {:induction false} TrimFrontContains(t: Text, p: string)
    requires t != [] && forall l <- t :: !Contains(l, p)
    ensures forall l <- TrimFront(t) :: !Contains(l, p)
  {
    if |t| > 1 && Blank(t[0]) {
      TrimFrontContains(t[1..], p);
    } else {
      TrimLeftContains(t[0], p);
    }
  }

  lemma {:induction false} TrimBackContains(t: Text, p: string)
    requires t != [] && forall l <- t :: !Contains(l, p)
    ensures forall l <- TrimBack(t) :: !Contains(l, p)
  {
    var n := |t| - 1;
    if |t| > 1 && Blank(t[n]) {
      TrimBackContains(t[..n], p);
    } else {
      assert t[n] in t;
      PartContains(t[n], 0, |TrimRight(t[n])|, p);
      assert t[n][0..|TrimRight(t[n])|] == TrimRight(t[n]);
    }
  }
}
