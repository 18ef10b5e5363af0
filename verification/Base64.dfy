/** The web-safe base64 codec (section 5 of RFC 4648, with `.` as the pad). */
module Base64 {
  import opened Bits
  import opened Prelude

  type Byte = x: int | 0 <= x < 256

  // ---------------------------------------------------------------- symbols

  /** A symbol's number; the last one is the pad. */
  type Symbol = x: int | 0 <= x <= 64

  const PAD: Symbol := 64

  function Alphabet(): (a: string)
    ensures |a| == 65
  {
    "ABCDEFGHIJKLMNOPQRSTUVWXYZ" + "abcdefghijklmnopqrstuvwxyz" + "0123456789-_" + "."
  }

  /** The position of a character in the alphabet, by the ranges the alphabet is made of. */
  function Value(c: char): Option<Symbol> {
    if 'A' <= c <= 'Z' then Some((c - 'A') as int)
    else if 'a' <= c <= 'z' then Some((c - 'a') as int + 26)
    else if '0' <= c <= '9' then Some((c - '0') as int + 52)
    else if c == '-' then Some(62)
    else if c == '_' then Some(63)
    else if c == '.' then Some(64)
    else None
  }

  lemma AlphabetIsNumbered(i: nat)
    requires i < 65
    ensures Value(Alphabet()[i]) == Some(i)
  {
    if i < 26 {
      UpperIsNumbered(i);
    } else if i < 52 {
      LowerIsNumbered(i - 26);
    }
  }

  lemma UpperIsNumbered(i: nat)
    requires i < 26
    ensures Value(Alphabet()[i]) == Some(i)
  {
    assert Alphabet()[i] == "ABCDEFGHIJKLMNOPQRSTUVWXYZ"[i];
  }

  lemma LowerIsNumbered(i: nat)
    requires i < 26
    ensures Value(Alphabet()[i + 26]) == Some(i + 26)
  {
    assert Alphabet()[i + 26] == "abcdefghijklmnopqrstuvwxyz"[i];
  }

  lemma ValueIsInjective(c: char, d: char)
    requires Value(c).Some? && Value(c) == Value(d)
    ensures c == d
  {
  }

  lemma ValueIsPosition(c: char)
    requires Value(c).Some?
    ensures Alphabet()[Value(c).value] == c
  {
    hide Value, Alphabet;
    var v := Value(c).value;
    AlphabetIsNumbered(v);
    ValueIsInjective(c, Alphabet()[v]);
  }

  /** Characters the reader passes over. */
  predicate IsSpace(c: char) {
    || '\t' <= c <= '\r' || c == ' ' || c == '\U{00A0}' || c == '\U{1680}' || '\U{2000}' <= c <= '\U{200A}'
    || c == '\U{2028}' || c == '\U{2029}' || c == '\U{202F}' || c == '\U{205F}' || c == '\U{3000}' || c == '\U{FEFF}'
  }

  // ---------------------------------------------------------------- encoding

  /** Three bytes, or the last one or two, as four symbols: section 4 of RFC 4648. */
  function Group(s: seq<Byte>): (g: seq<Symbol>)
    requires s != []
    ensures |g| == 4
  {
    var f, h, l := s[0], if |s| > 1 then s[1] else 0, if |s| > 2 then s[2] else 0;
    [f / 4, f % 4 * 16 + h / 16, if |s| > 1 then h % 16 * 4 + l / 64 else PAD, if |s| > 2 then l % 64 else PAD]
  }

  function Symbols(s: seq<Byte>): seq<Symbol>
    decreases |s|
  {
    if s == [] then [] else Group(s) + Symbols(if |s| > 3 then s[3..] else [])
  }

  function Spell(v: seq<Symbol>): (t: string)
    ensures |t| == |v|
  {
    seq(|v|, i requires 0 <= i < |v| => Alphabet()[v[i]])
  }

  function Encode(s: seq<Byte>): string {
    Spell(Symbols(s))
  }

  // ---------------------------------------------------------------- decoding

  function First(e: Symbol, f: Symbol): Word {
    Or(Shl(e, 2), Shr(f, 4))
  }

  function Second(f: Symbol, h: Symbol): Word {
    Or(And(Shl(f, 4), 240), Shr(h, 2))
  }

  function Third(h: Symbol, l: Symbol): Word {
    Or(And(Shl(h, 6), 192), l)
  }

  function At(v: seq<Symbol>, i: nat, missing: Symbol): Symbol {
    if i < |v| then v[i] else missing
  }

  /** What a group of four symbols yields; symbols missing at the end read as zero, pad, pad. */
  function Ungroup(v: seq<Symbol>): seq<Word>
    requires v != []
  {
    var e, f, h, l := v[0], At(v, 1, 0), At(v, 2, PAD), At(v, 3, PAD);
    [First(e, f)] + (if h == PAD then [] else [Second(f, h)] + (if l == PAD then [] else [Third(h, l)]))
  }

  function Bytes(v: seq<Symbol>): seq<Word>
    decreases |v|
  {
    if v == [] then [] else Ungroup(v) + Bytes(if |v| > 4 then v[4..] else [])
  }

  /** The first character that is neither a symbol nor space. */
  function FirstBad(t: string): Option<char> {
    if t == "" then None
    else if Value(t[0]).None? && !IsSpace(t[0]) then Some(t[0])
    else FirstBad(t[1..])
  }

  /** The symbols of a text, without anything else. */
  function Read(t: string): seq<Symbol> {
    if t == "" then []
    else if Value(t[0]).Some? then [Value(t[0]).value] + Read(t[1..])
    else Read(t[1..])
  }

  function Decode(t: string): Result<seq<Word>, char> {
    if FirstBad(t).Some? then Err(FirstBad(t).value) else Ok(Bytes(Read(t)))
  }

  // ---------------------------------------------------------------- the bit arithmetic of a group

  lemma GroupBits(f: Byte, h: Byte, l: Byte)
    ensures Shr(f, 2) == f / 4 && And(l, 63) == l % 64
    ensures Or(Shl(And(f, 3), 4), Shr(h, 4)) == f % 4 * 16 + h / 16
    ensures Or(Shl(And(h, 15), 2), Shr(l, 6)) == h % 16 * 4 + l / 64
  {
    SmallPowers();
    hide *;
    ShiftDown(f, 2, 4);
    Mask(l, 63, 6, 64);
    Mask(f, 3, 2, 4);
    ShiftDown(h, 4, 16);
    Join(f % 4, h / 16, 4, 16);
    Mask(h, 15, 4, 16);
    ShiftDown(l, 6, 64);
    Join(h % 16, l / 64, 2, 4);
  }

  /** Masking away the low bits of a number that was moved up masks the number. */
  lemma {:induction false} MaskMoved(x: nat, y: nat, k: nat, n: nat)
    requires k <= n
    ensures Bitwise(AND, x * Pow2(k), y * Pow2(k), n) == Bitwise(AND, x, y, n - k) * Pow2(k)
    decreases k
  {
    if k <= 0 {
    } else {
      var p := Pow2(k - 1);
      Doubled(x, p);
      Doubled(y, p);
      MaskMoved(x, y, k - 1, n - 1);
      DoubleBoth(x * p, y * p, n);
      Doubled(Bitwise(AND, x, y, n - k), p);
    }
  }

  lemma Doubled(x: nat, p: nat)
    ensures x * (2 * p) == 2 * (x * p)
  {
  }

  lemma DoubleBoth(x: nat, y: nat, n: nat)
    requires n > 0
    ensures Bitwise(AND, 2 * x, 2 * y, n) == 2 * Bitwise(AND, x, y, n - 1)
  {
    Evens(x);
    Evens(y);
  }

  lemma Evens(x: nat)
    ensures 2 * x / 2 == x && 2 * x % 2 == 0
  {
  }

  lemma UpperMasks(f: Symbol, h: Symbol)
    ensures And(Shl(f, 4), 240) == f % 16 * 16 && And(Shl(h, 6), 192) == h % 4 * 64
  {
    SmallPowers();
    MaskMoved(f, 15, 4, 32);
    MaskMoved(h, 3, 6, 32);
    MaskIsRemainder(f, 4, 28);
    MaskIsRemainder(h, 2, 26);
    ShiftUp(f, 4, 16);
    ShiftUp(h, 6, 64);
    hide Bitwise, Pow2, Shl;
  }

  /** What the decoder computes from symbols that are not pads. */
  lemma UngroupBits(e: Symbol, f: Symbol, h: Symbol, l: Symbol)
    requires e < 64 && f < 64 && h < 64
    ensures First(e, f) == e * 4 + f / 16
    ensures Second(f, h) == f % 16 * 16 + h / 4
    ensures l < 64 ==> Third(h, l) == h % 4 * 64 + l
  {
    SmallPowers();
    hide Or, And, Shl, Shr, Pow2, Bitwise;
    ShiftDown(f, 4, 16);
    Join(e, f / 16, 2, 4);
    UpperMasks(f, h);
    ShiftDown(h, 2, 4);
    ShiftUp(f % 16, 4, 16);
    Join(f % 16, h / 4, 4, 16);
    ShiftUp(h % 4, 6, 64);
    if l < 64 {
      Join(h % 4, l, 6, 64);
    }
  }

  // ---------------------------------------------------------------- round trip

  lemma BytesBack(f: Byte, h: Byte, l: Byte)
    ensures f / 4 * 4 + (f % 4 * 16 + h / 16) / 16 == f
    ensures (f % 4 * 16 + h / 16) % 16 * 16 + (h % 16 * 4 + l / 64) / 4 == h
    ensures (h % 16 * 4 + l / 64) % 4 * 64 + l % 64 == l
  {
    assert 0 <= h / 16 < 16 && 0 <= l / 64 < 4;
  }

  /** Decoding a group gives the bytes back, with or without its pads. */
  lemma GroupRoundTrip(s: seq<Byte>, v: seq<Symbol>)
    requires 0 < |s| <= 3 && |s| < |v| <= 4 && v == Group(s)[..|v|]
    ensures Ungroup(v) == s
  {
    hide First, Second, Third;
    var f, h, l := s[0], if |s| > 1 then s[1] else 0, if |s| > 2 then s[2] else 0;
    var g := Group(s);
    BytesBack(f, h, l);
    UngroupBits(f / 4, f % 4 * 16 + h / 16, h % 16 * 4 + l / 64, l % 64);
    assert v[0] == g[0] && At(v, 1, 0) == g[1] && At(v, 2, PAD) == g[2] && At(v, 3, PAD) == g[3];
    if |s| == 1 {
      assert Ungroup(v) == [f];
    } else if |s| == 2 {
      assert Ungroup(v) == [f, h];
    } else {
      assert Ungroup(v) == [f, h, l];
    }
  }

  /** How many pads end the encoding. */
  function Pads(s: seq<Byte>): nat {
    if |s| % 3 == 0 then 0 else 3 - |s| % 3
  }

  lemma {:induction false} BytesOfSymbols(s: seq<Byte>, n: nat)
    requires |Symbols(s)| - Pads(s) <= n <= |Symbols(s)|
    ensures Bytes(Symbols(s)[..n]) == s
    decreases |s|
  {
    hide Group, Ungroup;
    var v := Symbols(s)[..n];
    if s == [] {
    } else if |s| <= 3 {
      assert Symbols(s) == Group(s);
      GroupRoundTrip(s, v);
    } else {
      var rest := Symbols(s[3..]);
      FirstThree(s);
      GroupRoundTrip(s[..3], v[..4]);
      BytesOfSymbols(s[3..], n - 4);
      UngroupLooksAtFour(v);
      NotEmpty(s[3..]);
      assert v[4..] == rest[..n - 4];
      assert s == s[..3] + s[3..];
    }
  }

  lemma NotEmpty(s: seq<Byte>)
    requires s != []
    ensures |Symbols(s)| > Pads(s)
  {
    hide Group;
  }

  lemma FirstThree(s: seq<Byte>)
    requires |s| > 3
    ensures Group(s) == Group(s[..3]) && Symbols(s) == Group(s) + Symbols(s[3..]) && Pads(s) == Pads(s[3..])
  {
    GroupLooksAtThree(s);
    LessThree(|s|);
    hide Group;
    assert |s[3..]| == |s| - 3;
  }

  lemma LessThree(n: nat)
    requires n > 3
    ensures (n - 3) % 3 == n % 3
  {
  }

  lemma GroupLooksAtThree(s: seq<Byte>)
    requires |s| > 3
    ensures Group(s) == Group(s[..3])
  {
    var t := s[..3];
    assert t[0] == s[0] && t[1] == s[1] && t[2] == s[2];
  }

  lemma UngroupLooksAtFour(v: seq<Symbol>)
    requires |v| > 4
    ensures Ungroup(v) == Ungroup(v[..4])
  {
    hide First, Second, Third;
  }

  /** Every symbol but the pads at the end stands for six bits. */
  lemma {:induction false} PadsAreLast(s: seq<Byte>)
    ensures |Symbols(s)| >= Pads(s)
    ensures forall i :: 0 <= i < |Symbols(s)| - Pads(s) ==> Symbols(s)[i] < PAD
    ensures forall i :: |Symbols(s)| - Pads(s) <= i < |Symbols(s)| ==> Symbols(s)[i] == PAD
    decreases |s|
  {
    if |s| > 3 {
      FirstThree(s);
      PadsAreLast(s[3..]);
      assert forall i :: 0 <= i < 4 ==> Group(s)[i] < PAD;
      hide Group;
    } else if s != [] {
      assert Symbols(s) == Group(s);
    }
  }

  // ---------------------------------------------------------------- texts

  /** The text without its spaces. */
  function Squeeze(t: string): string {
    if t == "" then "" else if IsSpace(t[0]) then Squeeze(t[1..]) else [t[0]] + Squeeze(t[1..])
  }

  /** The text without the dots at its end. */
  function TrimDots(t: string): (r: string)
    ensures r <= t
    decreases t
  {
    if t != "" && t[|t| - 1] == '.' then TrimDots(t[..|t| - 1]) else t
  }

  lemma SymbolIsNoSpace(c: char)
    ensures Value(c).Some? ==> !IsSpace(c)
  {
  }

  lemma {:induction false} SqueezedReadsSame(t: string)
    ensures Read(t) == Read(Squeeze(t)) && FirstBad(t) == FirstBad(Squeeze(t))
    decreases t
  {
    hide Value, IsSpace;
    if t == "" {
    } else {
      SymbolIsNoSpace(t[0]);
      SqueezedReadsSame(t[1..]);
      assert ([t[0]] + Squeeze(t[1..]))[1..] == Squeeze(t[1..]);
    }
  }

  lemma {:induction false} ReadSpelled(v: seq<Symbol>)
    ensures Read(Spell(v)) == v && FirstBad(Spell(v)) == None
    decreases v
  {
    hide Value, Alphabet, IsSpace;
    if v == [] {
    } else {
      assert Spell(v)[0] == Alphabet()[v[0]] && Spell(v)[1..] == Spell(v[1..]);
      AlphabetIsNumbered(v[0]);
      ReadSpelled(v[1..]);
    }
  }

  lemma {:induction false} TrimSpelled(v: seq<Symbol>, n: nat)
    requires n <= |v| && (forall i :: n <= i < |v| ==> v[i] == PAD) && (n > 0 ==> v[n - 1] < PAD)
    ensures TrimDots(Spell(v)) == Spell(v[..n])
    decreases v
  {
    PadIsDot();
    hide Value, Alphabet;
    if n < |v| {
      assert Spell(v)[..|v| - 1] == Spell(v[..|v| - 1]);
      TrimSpelled(v[..|v| - 1], n);
      assert v[..|v| - 1][..n] == v[..n];
    } else if n > 0 {
      AlphabetIsNumbered(v[n - 1]);
      AlphabetIsNumbered(PAD);
      assert v[..n] == v;
    }
  }

  lemma PadIsDot()
    ensures Alphabet()[PAD] == '.'
  {
  }

  // ---------------------------------------------------------------- main results

  /**
   * Decoding undoes encoding for every byte string, also when some or all of the encoding's trailing
   * pads are gone and spaces stand anywhere between its characters.
   */
  lemma DecodeUndoesEncode(s: seq<Byte>, t: string)
    requires TrimDots(Encode(s)) <= Squeeze(t) <= Encode(s)
    ensures Decode(t) == Ok(s)
  {
    var v := Symbols(s);
    var n := |v| - Pads(s);
    PadsAreLast(s);
    hide Symbols, Pads;
    TrimSpelled(v, n);
    SqueezedReadsSame(t);
    var m := |Squeeze(t)|;
    assert Squeeze(t) == Spell(v[..m]);
    ReadSpelled(v[..m]);
    BytesOfSymbols(s, m);
  }

  /** Without its trailing dots what is encoded holds no dot. */
  lemma TrimmedHasNoDot(s: seq<Byte>)
    ensures '.' !in TrimDots(Encode(s))
  {
    var v := Symbols(s);
    var n := |v| - Pads(s);
    PadsAreLast(s);
    hide Symbols, Pads;
    TrimSpelled(v, n);
    forall i | 0 <= i < n
      ensures Spell(v[..n])[i] != '.'
    {
      AlphabetIsNumbered(v[i]);
    }
  }

  /** Without anything inserted or removed. */
  lemma RoundTrip(s: seq<Byte>)
    ensures Decode(Encode(s)) == Ok(s) && Decode(TrimDots(Encode(s))) == Ok(s)
  {
    ReadSpelled(Symbols(s));
    NoSpaces(Symbols(s));
    TrimmedIsSqueezed(Encode(s), TrimDots(Encode(s)));
    DecodeUndoesEncode(s, Encode(s));
    DecodeUndoesEncode(s, TrimDots(Encode(s)));
  }

  lemma {:induction false} NoSpaces(v: seq<Symbol>)
    ensures Squeeze(Spell(v)) == Spell(v)
    decreases v
  {
    hide Value, Alphabet, IsSpace;
    if v == [] {
    } else {
      AlphabetIsNumbered(v[0]);
      SymbolIsNoSpace(Alphabet()[v[0]]);
      assert Spell(v)[0] == Alphabet()[v[0]] && Spell(v)[1..] == Spell(v[1..]);
      NoSpaces(v[1..]);
    }
  }

  /** A beginning of a text without spaces has none either. */
  lemma {:induction false} TrimmedIsSqueezed(t: string, u: string)
    requires Squeeze(t) == t && u <= t
    ensures Squeeze(u) == u
    decreases t
  {
    hide IsSpace;
    if u == "" {
    } else {
      SqueezeIsShorter(t[1..]);
      assert t == [t[0]] + t[1..];
      TrimmedIsSqueezed(t[1..], u[1..]);
    }
  }

  lemma {:induction false} SqueezeIsShorter(t: string)
    ensures |Squeeze(t)| <= |t|
    decreases t
  {
    if t == "" {
    } else {
      SqueezeIsShorter(t[1..]);
    }
  }

  // ---------------------------------------------------------------- the code

  ghost predicate IsTable(b: map<char, Symbol>) {
    forall x :: (x in b <==> Value(x).Some?) && (x in b ==> Value(x) == Some(b[x]))
  }

  /** What is left of a text after `c` bytes. */
  function Rest(a: seq<Byte>, c: nat): seq<Byte> {
    if c <= |a| then a[c..] else []
  }

  lemma EncodeEnds(a: seq<Byte>)
    ensures "" + Encode(Rest(a, 0)) == Encode(a)
  {
    assert a[0..] == a;
  }

  lemma EncodeDone(a: seq<Byte>, c: nat)
    requires c >= |a|
    ensures Encode(Rest(a, c)) == ""
  {
    assert Rest(a, c) == [];
  }

  lemma Regroup<T>(a: seq<T>, b: seq<T>, c: seq<T>)
    ensures a + (b + c) == a + b + c
  {
  }

  lemma BytesEnd()
    ensures Bytes([]) == []
  {
  }

  lemma EndIsEmpty(t: string)
    ensures t[|t|..] == "" && Read("") == [] && FirstBad("") == None
  {
  }

  lemma NextGroup(a: seq<Byte>, c: nat)
    requires c < |a|
    ensures Encode(Rest(a, c)) == Spell(Group(a[c..])) + Encode(Rest(a, c + 3))
  {
    hide Group, Alphabet;
    var g := Group(a[c..]);
    assert Rest(a, c + 3) == if |a[c..]| > 3 then a[c..][3..] else [];
    var rest := Symbols(Rest(a, c + 3));
    assert Spell(g + rest) == Spell(g) + Spell(rest);
  }

  /** The code's four numbers are the group's symbols. */
  lemma CodeGroup(a: seq<Byte>, c: nat, f: Byte, h: Byte, l: Byte)
    requires c < |a| && f == a[c]
    requires h == (if c + 1 < |a| then a[c + 1] else 0) && l == (if c + 2 < |a| then a[c + 2] else 0)
    ensures Group(a[c..]) == [f / 4, f % 4 * 16 + h / 16, if c + 1 < |a| then h % 16 * 4 + l / 64 else 64,
                              if c + 2 < |a| then l % 64 else 64]
  {
  }

  lemma SpellFour(m: Symbol, n: Symbol, p: Symbol, q: Symbol)
    ensures Spell([m, n, p, q]) == [Alphabet()[m], Alphabet()[n], Alphabet()[p], Alphabet()[q]]
  {
    hide Alphabet;
  }

  lemma Appended(before: seq<Word>, c: seq<Word>, v: seq<Symbol>)
    requires v != []
    requires var e, f, h, l := v[0], At(v, 1, 0), At(v, 2, PAD), At(v, 3, PAD);
             c == if h == PAD then before + [First(e, f)]
                  else if l == PAD then before + [First(e, f)] + [Second(f, h)]
                  else before + [First(e, f)] + [Second(f, h)] + [Third(h, l)]
    ensures c + Bytes(if |v| > 4 then v[4..] else []) == before + Bytes(v)
  {
    hide First, Second, Third;
    assert c == before + Ungroup(v);
    Regroup(before, Ungroup(v), Bytes(if |v| > 4 then v[4..] else []));
  }

  /** The look-up tables, filled on first use. */
  class Codec {
    var alphabet: string
    var values: map<char, Symbol>

    ghost predicate Valid()
      reads this
    {
      && (alphabet == "" || alphabet == Alphabet())
      && (values == map[] || IsTable(values))
    }

    constructor ()
      ensures Valid()
    {
      alphabet, values := "", map[];
    }

    method Prepare()
      requires Valid()
      modifies this
      ensures Valid() && alphabet == Alphabet() && IsTable(values)
    {
      if alphabet == "" {
        alphabet := Alphabet();
      }
      if values == map[] {
        values := Number(alphabet);
      }
    }

    static method Number(a: string) returns (b: map<char, Symbol>)
      requires a == Alphabet()
      ensures IsTable(b)
    {
      hide Alphabet, Value;
      b := map[];
      var c: nat := 0;
      while c < |a|
        invariant c <= |a| == 65
        invariant forall x :: x in b <==> Value(x).Some? && Value(x).value < c
        invariant forall x :: x in b ==> Value(x) == Some(b[x])
      {
        AlphabetIsNumbered(c);
        forall x | Value(x) == Some(c as Symbol)
          ensures x == a[c]
        {
          ValueIsPosition(x);
        }
        b := b[a[c] := c];
        c := c + 1;
      }
    }

    method EncodeBytes(a: seq<Byte>) returns (t: string)
      requires Valid()
      modifies this
      ensures Valid() && t == Encode(a)
    {
      Prepare();
      hide Symbols, Alphabet, Group, Encode, Spell, IsTable, Rest;
      EncodeEnds(a);
      t := "";
      var c := 0;
      while c < |a|
        invariant 0 <= c && t + Encode(Rest(a, c)) == Encode(a)
        invariant Valid() && alphabet == Alphabet() && |alphabet| == 65
      {
        var four := FourSymbols(a, c);
        NextGroup(a, c);
        SpellFour(four[0], four[1], four[2], four[3]);
        Regroup(t, Spell(four), Encode(Rest(a, c + 3)));
        t := t + [alphabet[four[0]], alphabet[four[1]], alphabet[four[2]], alphabet[four[3]]];
        c := c + 3;
      }
      EncodeDone(a, c);
      assert t + "" == t;
    }

    static method FourSymbols(a: seq<Byte>, c: nat) returns (four: seq<Symbol>)
      requires c < |a|
      ensures four == Group(a[c..])
    {
      hide Group, And, Or, Shr, Shl;
      var d, e := c + 1 < |a|, c + 2 < |a|;
      var f, h, l := a[c], if d then a[c + 1] else 0, if e then a[c + 2] else 0;
      var m, n := Shr(f, 2), Or(Shl(And(f, 3), 4), Shr(h, 4));
      var p, q := Or(Shl(And(h, 15), 2), Shr(l, 6)), And(l, 63);
      if !e {
        q := 64;
        if !d {
          p := 64;
        }
      }
      GroupBits(f, h, l);
      CodeGroup(a, c, f, h, l);
      four := [m, n, p, q];
    }

    /** The next symbol at or after `d`, or `missing` at the end of the text. */
    method NextSymbol(t: string, d: nat, missing: int) returns (v: int, next: nat, bad: Option<char>)
      requires IsTable(values) && d <= |t|
      ensures d <= next <= |t|
      ensures bad.Some? ==> FirstBad(t[d..]) == bad
      ensures bad.None? && Read(t[d..]) == [] ==> v == missing && next == |t| && FirstBad(t[d..]) == None
      ensures bad.None? && Read(t[d..]) != [] ==>
                && Read(t[d..]) == [v] + Read(t[next..]) && FirstBad(t[d..]) == FirstBad(t[next..]) && next > d
    {
      hide Value, IsSpace;
      next := d;
      while next < |t|
        invariant d <= next <= |t| && Read(t[d..]) == Read(t[next..]) && FirstBad(t[d..]) == FirstBad(t[next..])
      {
        var n := t[next];
        assert t[next..][0] == n && t[next..][1..] == t[next + 1..];
        SymbolIsNoSpace(n);
        next := next + 1;
        if n in values {
          return values[n], next, None;
        }
        if !IsSpace(n) {
          return missing, next, Some(n);
        }
      }
      v, bad := missing, None;
    }

    /** The next four symbols; the end of the text reads as -1, 0, 64, 64. */
    method NextFour(t: string, d: nat) returns (e: int, f: int, h: int, l: int, next: nat, bad: Option<char>)
      requires IsTable(values) && d <= |t|
      ensures d <= next <= |t|
      ensures bad.Some? ==> FirstBad(t[d..]) == bad
      ensures var v := Read(t[d..]);
              bad.None? ==>
                && FirstBad(t[d..]) == FirstBad(t[next..])
                && Read(t[next..]) == (if |v| > 4 then v[4..] else [])
                && (v == [] ==> e == -1 && l == 64 && FirstBad(t[d..]) == None)
                && (v != [] ==> next > d && e == v[0] && f == At(v, 1, 0) && h == At(v, 2, 64) && l == At(v, 3, 64))
    {
      hide Read, FirstBad, IsTable;
      f, h, l := 0, 64, 64;
      EndIsEmpty(t);
      e, next, bad := NextSymbol(t, d, -1);
      if bad.None? {
        f, next, bad := NextSymbol(t, next, 0);
        if bad.None? {
          h, next, bad := NextSymbol(t, next, 64);
          if bad.None? {
            l, next, bad := NextSymbol(t, next, 64);
          }
        }
      }
    }

    method DecodeText(t: string) returns (r: Result<seq<Word>, char>)
      requires Valid()
      modifies this
      ensures Valid() && r == Decode(t)
    {
      Prepare();
      hide Read, FirstBad, IsTable, Alphabet, First, Second, Third, Bytes;
      BytesEnd();
      var c: seq<Word> := [];
      var d := 0;
      assert t[0..] == t;
      while true
        invariant d <= |t| && IsTable(values) && alphabet == Alphabet()
        invariant FirstBad(t[d..]) == FirstBad(t) && c + Bytes(Read(t[d..])) == Bytes(Read(t))
        decreases |t| - d
      {
        ghost var v := Read(t[d..]);
        var e, f, h, l, next, bad := NextFour(t, d);
        if bad.Some? {
          return Err(bad.value);
        }
        if l == 64 && e == -1 {
          assert c + [] == c;
          return Ok(c);
        }
        assert v != [];
        ghost var before := c;
        c := c + [First(e, f)];
        if h != 64 {
          c := c + [Second(f, h)];
          if l != 64 {
            c := c + [Third(h, l)];
          }
        }
        Appended(before, c, v);
        d := next;
      }
    }
  }
}
