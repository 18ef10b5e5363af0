/** The table-driven CRC-32 of the browser fingerprint, and what it computes. */
module Crc32 {
  // ---------------------------------------------------------------- 32-bit words

  function Xor(x: bv32, y: bv32): bv32 {
    x ^ y
  }

  predicate Odd(x: bv32) {
    x & 1 == 1
  }

  function Half(x: bv32): bv32 {
    x >> 1
  }

  /** The low byte, and the rest moved down over it. */
  function LowByte(x: bv32): bv32 {
    x & 255
  }

  function Above(x: bv32): bv32 {
    x >> 8
  }

  // ---------------------------------------------------------------- reference definition

  /** The reversed generator polynomial. */
  const POLYNOMIAL: bv32 := 3988292384

  /** One shift of the register: section 8 of RFC 1952. */
  function Shift(r: bv32): bv32 {
    if Odd(r) then Xor(Half(r), POLYNOMIAL) else Half(r)
  }

  function Shifts(r: bv32, n: nat): bv32
    decreases n
  {
    if n == 0 then r else Shifts(Shift(r), n - 1)
  }

  function Bit(b: bool): bv32 {
    if b then 1 else 0
  }

  /** The message bits enter the register at its low end, one shift each. */
  function Run(r: bv32, bits: seq<bool>): bv32
    decreases bits
  {
    if bits == [] then r else Run(Shift(Xor(r, Bit(bits[0]))), bits[1..])
  }

  /** The `n` low bits of a word, lowest first. */
  function BitsOf(w: bv32, n: nat): seq<bool>
    decreases n
  {
    if n == 0 then [] else [Odd(w)] + BitsOf(Half(w), n - 1)
  }

  function Code(c: bv16): bv32 {
    c as bv32
  }

  /** The low eight bits of every character code. */
  function AllBits(text: seq<bv16>): seq<bool>
    decreases text
  {
    if text == [] then [] else BitsOf(Code(text[0]), 8) + AllBits(text[1..])
  }

  /** The checksum, one bit at a time: all ones, every message bit, complement. */
  function Checksum(text: seq<bv16>): bv32 {
    Xor(Run(0xFFFFFFFF, AllBits(text)), 0xFFFFFFFF)
  }

  // ---------------------------------------------------------------- facts about words

  lemma XorParity(x: bv32, y: bv32)
    ensures Odd(Xor(x, y)) <==> Odd(x) != Odd(y)
    ensures Half(Xor(x, y)) == Xor(Half(x), Half(y))
  {
  }

  lemma XorGroup(x: bv32, y: bv32, z: bv32)
    ensures Xor(Xor(x, y), z) == Xor(x, Xor(y, z))
    ensures Xor(x, y) == Xor(y, x)
    ensures Xor(x, 0) == x && Xor(x, x) == 0
  {
  }

  lemma XorInjective(x: bv32, y: bv32, z: bv32)
    requires Xor(x, z) == Xor(y, z)
    ensures x == y
  {
    XorGroup(x, z, z);
    XorGroup(y, z, z);
  }

  lemma FeedbackMovesOut(x: bv32, y: bv32, p: bv32)
    ensures Xor(Xor(x, p), y) == Xor(Xor(x, y), p) && Xor(x, Xor(y, p)) == Xor(Xor(x, y), p)
    ensures Xor(Xor(x, p), Xor(y, p)) == Xor(x, y)
  {
  }

  lemma HalfAndParity(x: bv32, y: bv32)
    requires Half(x) == Half(y) && Odd(x) == Odd(y)
    ensures x == y
  {
  }

  lemma TopBitTells(x: bv32, y: bv32)
    ensures Xor(Half(x), POLYNOMIAL) != Half(y)
  {
    assert ((x >> 1) ^ POLYNOMIAL) & 0x80000000 != 0 && (y >> 1) & 0x80000000 == 0;
  }

  // ---------------------------------------------------------------- shifting is linear and injective

  lemma ShiftLinear(x: bv32, y: bv32)
    ensures Shift(Xor(x, y)) == Xor(Shift(x), Shift(y))
  {
    hide Xor, Odd, Half;
    XorParity(x, y);
    FeedbackMovesOut(Half(x), Half(y), POLYNOMIAL);
  }

  lemma {:induction false} ShiftsLinear(x: bv32, y: bv32, n: nat)
    ensures Shifts(Xor(x, y), n) == Xor(Shifts(x, n), Shifts(y, n))
    decreases n
  {
    hide Shift, Xor;
    if n <= 0 {
    } else {
      ShiftLinear(x, y);
      ShiftsLinear(Shift(x), Shift(y), n - 1);
    }
  }

  lemma {:induction false} ShiftsAdd(x: bv32, m: nat, n: nat)
    ensures Shifts(x, m + n) == Shifts(Shifts(x, m), n)
    decreases m
  {
    hide Shift;
    if m <= 0 {
    } else {
      ShiftsAdd(Shift(x), m - 1, n);
    }
  }

  /** No two registers shift to the same one: the polynomial's top bit tells the cases apart. */
  lemma ShiftInjective(x: bv32, y: bv32)
    requires Shift(x) == Shift(y)
    ensures x == y
  {
    hide Xor, Odd, Half;
    TopBitTells(x, y);
    TopBitTells(y, x);
    if Odd(x) && Odd(y) {
      XorInjective(Half(x), Half(y), POLYNOMIAL);
    }
    HalfAndParity(x, y);
  }

  lemma {:induction false} ShiftsInjective(x: bv32, y: bv32, n: nat)
    requires Shifts(x, n) == Shifts(y, n)
    ensures x == y
    decreases n
  {
    hide Shift;
    if n <= 0 {
    } else {
      ShiftsInjective(Shift(x), Shift(y), n - 1);
      ShiftInjective(x, y);
    }
  }

  // ---------------------------------------------------------------- bits that enter one by one

  function Halves(w: bv32, n: nat): bv32
    decreases n
  {
    if n == 0 then w else Halves(Half(w), n - 1)
  }

  lemma LowBitOut(w: bv32)
    ensures !Odd(Xor(w, Bit(Odd(w)))) && Half(Xor(w, Bit(Odd(w)))) == Half(w)
  {
    assert w & 1 == 0 || w & 1 == 1;
    assert (w ^ 1) >> 1 == w >> 1 && (w ^ 0) >> 1 == w >> 1;
  }

  lemma BitBeforeRest(r: bv32, w: bv32)
    ensures Xor(Shift(Xor(r, Bit(Odd(w)))), Half(w)) == Shift(Xor(r, w))
  {
    hide Xor, Odd, Half, Bit;
    var b := Bit(Odd(w));
    LowBitOut(w);
    ShiftLinear(Xor(r, b), Xor(w, b));
    FeedbackMovesOut(r, w, b);
  }

  /** Bits that enter one by one might as well have been in the register from the start. */
  lemma {:induction false} RunIsShifts(r: bv32, w: bv32, n: nat)
    ensures Run(r, BitsOf(w, n)) == Xor(Shifts(Xor(r, w), n), Halves(w, n))
    decreases n
  {
    hide Xor, Odd, Half, Bit, Shift;
    if n == 0 {
      XorBack(r, w);
    } else {
      var b := Bit(Odd(w));
      var rest := BitsOf(Half(w), n - 1);
      assert BitsOf(w, n)[1..] == rest;
      RunIsShifts(Shift(Xor(r, b)), Half(w), n - 1);
      BitBeforeRest(r, w);
    }
  }

  lemma XorBack(x: bv32, y: bv32)
    ensures Xor(Xor(x, y), y) == x
  {
  }

  // ---------------------------------------------------------------- a byte at a time

  function Quarter(x: bv32): bv32 {
    x >> 2
  }

  lemma TwoHalves(x: bv32)
    ensures Half(Half(x)) == Quarter(x)
    ensures x & 3 == 0 ==> !Odd(x) && !Odd(Half(x))
  {
  }

  lemma FourQuarters(x: bv32)
    ensures Quarter(Quarter(Quarter(Quarter(x)))) == Above(x)
  {
    hide Quarter;
    TwoQuarters(x);
    TwoQuarters(Quarter(Quarter(x)));
    ByEight(x);
  }

  lemma TwoQuarters(x: bv32)
    ensures Quarter(Quarter(x)) == x >> 4
  {
  }

  lemma ByEight(x: bv32)
    ensures (x >> 4) >> 4 == x >> 8
  {
  }

  lemma QuartersEven(x: bv32)
    requires LowByte(x) == 0
    ensures var a := Quarter(x);
            var b := Quarter(a);
            x & 3 == 0 && a & 3 == 0 && b & 3 == 0 && Quarter(b) & 3 == 0
  {
    assert x & 3 == 0 && (x >> 2) & 3 == 0 && ((x >> 2) >> 2) & 3 == 0 && (((x >> 2) >> 2) >> 2) & 3 == 0;
  }

  lemma EightHalves(x: bv32)
    ensures Halves(x, 8) == Above(x)
    ensures LowByte(x) == 0 ==> Shifts(x, 8) == Above(x)
  {
    var a := Quarter(x);
    var b := Quarter(a);
    var c := Quarter(b);
    TwoHalves(x);
    TwoHalves(a);
    TwoHalves(b);
    TwoHalves(c);
    FourQuarters(x);
    if LowByte(x) == 0 {
      QuartersEven(x);
    }
    TwoSteps(x, 8);
    TwoSteps(a, 6);
    TwoSteps(b, 4);
    TwoSteps(c, 2);
    hide Odd, Half, Xor, Above, LowByte, Quarter, Shift, Shifts, Halves;
  }

  lemma TwoSteps(x: bv32, n: nat)
    requires n >= 2
    ensures Halves(x, n) == Halves(Quarter(x), n - 2)
    ensures x & 3 == 0 ==> Shifts(x, n) == Shifts(Quarter(x), n - 2)
    ensures Halves(x, 0) == x && Shifts(x, 0) == x
  {
    TwoHalves(x);
    hide Odd, Half, Xor, Quarter;
    assert Halves(x, n) == Halves(Half(x), n - 1) == Halves(Half(Half(x)), n - 2);
    if x & 3 == 0 {
      assert Shift(x) == Half(x) && Shift(Half(x)) == Half(Half(x));
      assert Shifts(x, n) == Shifts(Shift(x), n - 1) == Shifts(Shift(Shift(x)), n - 2);
    }
  }

  /** What one table look-up does to the register. */
  function Look(r: bv32, c: bv32): bv32 {
    Xor(Above(r), Shifts(LowByte(Xor(r, c)), 8))
  }

  function HighBytes(x: bv32): bv32 {
    x & 0xFFFFFF00
  }

  lemma HighIsClear(x: bv32)
    ensures LowByte(HighBytes(x)) == 0
  {
  }

  lemma HighIsAbove(x: bv32)
    ensures Above(HighBytes(x)) == Above(x)
  {
  }

  lemma HighAndLow(x: bv32)
    ensures Xor(HighBytes(x), LowByte(x)) == x
  {
  }

  lemma AboveXor(x: bv32, y: bv32)
    ensures Above(Xor(x, y)) == Xor(Above(x), Above(y))
  {
  }

  /** A look-up is eight shifts with the whole character code added in, less the code's upper part. */
  lemma LookIsShifts(r: bv32, c: bv32)
    ensures Look(r, c) == Xor(Shifts(Xor(r, c), 8), Above(c))
  {
    hide Xor, Above, LowByte, HighBytes, Shifts;
    var x := Xor(r, c);
    var z := Shifts(LowByte(x), 8);
    HighIsClear(x);
    HighIsAbove(x);
    HighAndLow(x);
    ShiftsLinear(HighBytes(x), LowByte(x), 8);
    EightHalves(HighBytes(x));
    AboveXor(r, c);
    FeedbackMovesOut(Above(r), z, Above(c));
    XorBack(Xor(Above(r), z), Above(c));
  }

  /** A look-up is the same as clocking in the code's low eight bits. */
  lemma LookIsRun(r: bv32, c: bv32)
    ensures Look(r, c) == Run(r, BitsOf(c, 8))
  {
    hide Xor, Above, LowByte, Shifts, Look, Run, BitsOf, Halves;
    LookIsShifts(r, c);
    RunIsShifts(r, c, 8);
    EightHalves(c);
  }

  function Looks(r: bv32, text: seq<bv16>): bv32
    decreases text
  {
    if text == [] then r else Looks(Look(r, Code(text[0])), text[1..])
  }

  lemma {:induction false} RunSplits(r: bv32, a: seq<bool>, b: seq<bool>)
    ensures Run(r, a + b) == Run(Run(r, a), b)
    decreases a
  {
    hide Xor, Shift, Bit;
    if a == [] {
      assert a + b == b;
    } else {
      assert (a + b)[1..] == a[1..] + b;
      RunSplits(Shift(Xor(r, Bit(a[0]))), a[1..], b);
    }
  }

  /** Table look-ups over a text leave the register as bit-at-a-time clocking does. */
  lemma {:induction false} LooksIsRun(r: bv32, text: seq<bv16>)
    ensures Looks(r, text) == Run(r, AllBits(text))
    decreases text
  {
    hide Look, Code, BitsOf;
    if text == [] {
    } else {
      var c := Code(text[0]);
      LookIsRun(r, c);
      RunSplits(r, BitsOf(c, 8), AllBits(text[1..]));
      LooksIsRun(Look(r, c), text[1..]);
      hide Run;
    }
  }

  // ---------------------------------------------------------------- bursts

  /** Four character codes as one word, the first lowest. */
  function Word(u: seq<bv16>): bv32
    requires |u| == 4
  {
    Xor(Xor(LowByte(Code(u[0])), LowByte(Code(u[1])) << 8), Xor(LowByte(Code(u[2])) << 16, LowByte(Code(u[3])) << 24))
  }

  lemma BytesOfWord(a: bv32, b: bv32, c: bv32, d: bv32)
    ensures var w := Xor(Xor(LowByte(a), LowByte(b) << 8), Xor(LowByte(c) << 16, LowByte(d) << 24));
            && LowByte(w) == LowByte(a) && LowByte(Above(w)) == LowByte(b)
            && LowByte(Above(Above(w))) == LowByte(c) && LowByte(Above(Above(Above(w)))) == LowByte(d)
            && Above(Above(Above(Above(w)))) == 0
  {
  }

  lemma BytesOf(u: seq<bv16>)
    requires |u| == 4
    ensures var w := Word(u);
            && LowByte(w) == LowByte(Code(u[0])) && LowByte(Above(w)) == LowByte(Code(u[1]))
            && LowByte(Above(Above(w))) == LowByte(Code(u[2])) && LowByte(Above(Above(Above(w)))) == LowByte(Code(u[3]))
            && Above(Above(Above(Above(w)))) == 0
  {
    hide Xor, Above, LowByte, Code;
    BytesOfWord(Code(u[0]), Code(u[1]), Code(u[2]), Code(u[3]));
  }

  lemma LookAtLowByte(r: bv32, c: bv32, d: bv32)
    requires LowByte(c) == LowByte(d)
    ensures Look(r, c) == Look(r, d)
  {
    assert (r ^ c) & 255 == (r ^ d) & 255;
  }

  lemma NextLook(r: bv32, z: bv32, w: bv32, n: nat, c: bv32)
    requires r == Xor(Shifts(z, n), w) && LowByte(c) == LowByte(w)
    ensures Look(r, c) == Xor(Shifts(z, n + 8), Above(w))
  {
    hide Xor, Above, LowByte, Shifts, Look;
    LookAtLowByte(r, c, w);
    LookIsShifts(r, w);
    XorBack(Shifts(z, n), w);
    ShiftsAdd(z, n, 8);
  }

  /** After four look-ups the register is that of thirty-two shifts of the register plus the word. */
  lemma FourLooks(r: bv32, u: seq<bv16>)
    requires |u| == 4
    ensures Looks(r, u) == Shifts(Xor(r, Word(u)), 32)
  {
    hide Xor, Above, LowByte, Word, Code, Look, Looks;
    var w := Word(u);
    var z := Xor(r, w);
    BytesOf(u);
    XorBack(r, w);
    assert Shifts(z, 0) == z;
    hide Shifts;
    FourSteps(r, u);
    NextLook(r, z, w, 0, Code(u[0]));
    var r1 := Look(r, Code(u[0]));
    NextLook(r1, z, Above(w), 8, Code(u[1]));
    var r2 := Look(r1, Code(u[1]));
    NextLook(r2, z, Above(Above(w)), 16, Code(u[2]));
    var r3 := Look(r2, Code(u[2]));
    NextLook(r3, z, Above(Above(Above(w))), 24, Code(u[3]));
    XorGroup(Shifts(z, 32), 0, 0);
  }

  lemma FourSteps(r: bv32, u: seq<bv16>)
    requires |u| == 4
    ensures Looks(r, u) == Look(Look(Look(Look(r, Code(u[0])), Code(u[1])), Code(u[2])), Code(u[3]))
  {
    hide Look, Code;
    var r2 := Look(Look(r, Code(u[0])), Code(u[1]));
    assert u[1..][0] == u[1] && u[2..][0] == u[2] && u[3..][0] == u[3];
    assert u[1..][1..] == u[2..] && u[2..][1..] == u[3..] && u[3..][1..] == [];
    assert Looks(r, u) == Looks(Look(r, Code(u[0])), u[1..]) == Looks(r2, u[2..]);
    var r3 := Look(r2, Code(u[2]));
    assert Looks(r2, u[2..]) == Looks(r3, u[3..]) == Looks(Look(r3, Code(u[3])), []);
  }

  predicate SameLowBytes(u: seq<bv16>, v: seq<bv16>) {
    |u| == |v| && forall i :: 0 <= i < |u| ==> LowByte(Code(u[i])) == LowByte(Code(v[i]))
  }

  lemma {:induction false} LooksSplit(r: bv32, a: seq<bv16>, b: seq<bv16>)
    ensures Looks(r, a + b) == Looks(Looks(r, a), b)
    decreases a
  {
    hide Look, Code;
    if a == [] {
      assert a + b == b;
    } else {
      assert (a + b)[1..] == a[1..] + b;
      LooksSplit(Look(r, Code(a[0])), a[1..], b);
    }
  }

  lemma {:induction false} SameBytesSameLooks(r: bv32, u: seq<bv16>, v: seq<bv16>)
    requires SameLowBytes(u, v)
    ensures Looks(r, u) == Looks(r, v)
    decreases u
  {
    hide Look, Code, LowByte;
    if u == [] {
    } else {
      LookAtLowByte(r, Code(u[0]), Code(v[0]));
      SameBytesSameLooks(Look(r, Code(u[0])), u[1..], v[1..]);
    }
  }

  lemma LookInjective(x: bv32, y: bv32, c: bv32)
    requires Look(x, c) == Look(y, c)
    ensures x == y
  {
    hide Xor, Above, Shifts, Look;
    LookIsShifts(x, c);
    LookIsShifts(y, c);
    XorInjective(Shifts(Xor(x, c), 8), Shifts(Xor(y, c), 8), Above(c));
    ShiftsInjective(Xor(x, c), Xor(y, c), 8);
    XorInjective(x, y, c);
  }

  lemma {:induction false} LooksInjective(x: bv32, y: bv32, text: seq<bv16>)
    requires Looks(x, text) == Looks(y, text)
    ensures x == y
    decreases text
  {
    hide Look, Code;
    if text == [] {
    } else {
      var c := Code(text[0]);
      LooksInjective(Look(x, c), Look(y, c), text[1..]);
      LookInjective(x, y, c);
    }
  }

  /** Four codes that lead one register to the same place have the same low bytes. */
  lemma FourAreSame(r: bv32, u: seq<bv16>, v: seq<bv16>)
    requires |u| == |v| == 4 && Looks(r, u) == Looks(r, v)
    ensures SameLowBytes(u, v)
  {
    hide Word, Xor, Above, LowByte, Code, Looks;
    BytesOf(u);
    BytesOf(v);
    WordsAreSame(r, u, v);
    forall i | 0 <= i < 4
      ensures LowByte(Code(u[i])) == LowByte(Code(v[i]))
    {
      assert i == 0 || i == 1 || i == 2 || i == 3;
    }
  }

  lemma WordsAreSame(r: bv32, u: seq<bv16>, v: seq<bv16>)
    requires |u| == |v| == 4 && Looks(r, u) == Looks(r, v)
    ensures Word(u) == Word(v)
  {
    hide Xor, Word, Shifts, Looks;
    FourLooks(r, u);
    FourLooks(r, v);
    ShiftsInjective(Xor(r, Word(u)), Xor(r, Word(v)), 32);
    XorGroup(r, Word(u), 0);
    XorGroup(r, Word(v), 0);
    XorInjective(Word(u), Word(v), r);
  }

  lemma BurstsAreSame(r: bv32, u: seq<bv16>, v: seq<bv16>)
    requires |u| == |v| <= 4 && Looks(r, u) == Looks(r, v)
    ensures SameLowBytes(u, v)
  {
    hide Looks, LowByte, Code;
    var zeros := seq(4 - |u|, i => 0 as bv16);
    LooksSplit(r, u, zeros);
    LooksSplit(r, v, zeros);
    FourAreSame(r, u + zeros, v + zeros);
    forall i | 0 <= i < |u|
      ensures LowByte(Code(u[i])) == LowByte(Code(v[i]))
    {
      assert (u + zeros)[i] == u[i] && (v + zeros)[i] == v[i];
    }
  }

  // ---------------------------------------------------------------- main results

  /**
   * Two texts that differ only within four neighbouring characters have the same checksum exactly
   * when the low bytes of their codes agree: every change of up to four bytes in a row is detected,
   * and a change in the upper byte of a code never is.
   */
  lemma BurstIsDetected(before: seq<bv16>, u: seq<bv16>, v: seq<bv16>, after: seq<bv16>)
    requires |u| == |v| <= 4
    ensures Checksum(before + u + after) == Checksum(before + v + after) <==> SameLowBytes(u, v)
  {
    var ones: bv32 := 0xFFFFFFFF;
    var r := Looks(ones, before);
    ChecksumInParts(before, u, after);
    ChecksumInParts(before, v, after);
    hide Looks, Checksum, Xor, LowByte, Code, SameLowBytes;
    var x := Looks(Looks(r, u), after);
    var y := Looks(Looks(r, v), after);
    if Xor(x, ones) == Xor(y, ones) {
      XorInjective(x, y, ones);
      LooksInjective(Looks(r, u), Looks(r, v), after);
      BurstsAreSame(r, u, v);
    }
    if SameLowBytes(u, v) {
      SameBytesSameLooks(r, u, v);
    }
  }

  lemma ChecksumInParts(before: seq<bv16>, u: seq<bv16>, after: seq<bv16>)
    ensures Checksum(before + u + after) == Xor(Looks(Looks(Looks(0xFFFFFFFF, before), u), after), 0xFFFFFFFF)
  {
    hide Looks, Run, AllBits, Xor;
    LooksIsRun(0xFFFFFFFF, before + u + after);
    LooksSplit(0xFFFFFFFF, before + u, after);
    LooksSplit(0xFFFFFFFF, before, u);
  }

  // ---------------------------------------------------------------- the code

  /** The table entry for a byte. */
  function Entry(b: bv32): bv32 {
    Shifts(b, 8)
  }

  ghost predicate IsTable(t: seq<bv32>) {
    |t| == 256 && forall f :: 0 <= f < 256 ==> t[f] == Entry(f as bv32)
  }

  lemma ShiftInline(h: bv32)
    ensures Shift(h) == if h & 1 == 1 then (h >> 1) ^ 3988292384 else h >> 1
  {
  }

  lemma LookInline(r: bv32, c: bv16)
    ensures var x := (r ^ (c as bv32)) & 255;
            && 0 <= x as int < 256
            && Look(r, Code(c)) == Xor(r >> 8, Entry((x as int) as bv32))
  {
    var x := (r ^ (c as bv32)) & 255;
    ByteIndex(x);
    hide Shifts;
  }

  lemma ByteIndex(x: bv32)
    requires x & 255 == x
    ensures 0 <= x as int < 256 && (x as int) as bv32 == x
  {
    assert x <= 255;
  }

  /** The fingerprint's hash, with its table built on first use. */
  class Fingerprint {
    var table: array?<bv32>

    ghost predicate Valid()
      reads this, table
    {
      table != null ==> IsTable(table[..])
    }

    constructor ()
      ensures Valid()
    {
      table := null;
    }

    method BuildTable() returns (t: array<bv32>)
      ensures fresh(t) && IsTable(t[..])
    {
      hide Entry;
      t := new bv32[256];
      var f: nat := 0;
      while f < 256
        invariant f <= 256
        invariant forall k :: 0 <= k < f ==> t[k] == Entry(k as bv32)
      {
        var h := EntryOf(f as bv32);
        t[f] := h;
        f := f + 1;
      }
    }

    method EntryOf(f: bv32) returns (h: bv32)
      ensures h == Entry(f)
    {
      hide Shift;
      h := f;
      var l: nat := 0;
      while l < 8
        invariant l <= 8
        invariant Shifts(h, 8 - l) == Shifts(f, 8)
      {
        ShiftInline(h);
        h := if h & 1 == 1 then (h >> 1) ^ 3988292384 else h >> 1;
        l := l + 1;
      }
    }

    /** The hash of a text: table look-ups compute the bit-at-a-time checksum. */
    method Hash(text: seq<bv16>) returns (hash: bv32)
      requires Valid()
      modifies this
      ensures Valid() && table != null && (old(table) != null ==> table == old(table))
      ensures hash == Checksum(text)
    {
      var t := table;
      if t == null {
        t := BuildTable();
      }
      table := t;
      var m := Register(t, text);
      hash := m ^ 4294967295;
      LooksIsRun(0xFFFFFFFF, text);
      hide Looks, Run, AllBits, IsTable;
    }

    method Register(t: array<bv32>, text: seq<bv16>) returns (m: bv32)
      requires IsTable(t[..])
      ensures m == Looks(0xFFFFFFFF, text)
    {
      hide Look, Xor, Entry, Code;
      m := 4294967295;
      var n := 0;
      while n < |text|
        invariant 0 <= n <= |text|
        invariant Looks(m, text[n..]) == Looks(0xFFFFFFFF, text)
      {
        m := Step(t, m, text[n]);
        assert text[n..][1..] == text[n + 1..];
        n := n + 1;
      }
    }

    method Step(t: array<bv32>, m: bv32, c: bv16) returns (r: bv32)
      requires IsTable(t[..])
      ensures r == Look(m, Code(c))
    {
      LookInline(m, c);
      hide Look, Entry, Code;
      r := (m >> 8) ^ t[((m ^ (c as bv32)) & 255) as int];
    }
  }
}
