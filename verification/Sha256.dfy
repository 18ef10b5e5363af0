/** The compression step of SHA-256, as FIPS 180-4 states it and as signed 32-bit code computes it. */
module Sha256 {
  import opened Bits

  type Byte = x: int | 0 <= x < 256

  type Block = s: seq<Byte> | |s| == 64 ghost witness seq(64, i => 0)

  // ---------------------------------------------------------------- words: section 3.2 of FIPS 180-4

  function Add(x: Word, y: Word): Word {
    (x + y) % TWO32
  }

  function Rotr(x: Word, n: nat): Word
    requires 0 < n < 32
  {
    Or(Shr(x, n), Shl(x, 32 - n))
  }

  // ---------------------------------------------------------------- functions: section 4.1.2 of FIPS 180-4

  function Ch(x: Word, y: Word, z: Word): Word {
    Xor(And(x, y), And(Not(x), z))
  }

  function Maj(x: Word, y: Word, z: Word): Word {
    Xor(Xor(And(x, y), And(x, z)), And(y, z))
  }

  function BigSigma0(x: Word): Word {
    Xor(Xor(Rotr(x, 2), Rotr(x, 13)), Rotr(x, 22))
  }

  function BigSigma1(x: Word): Word {
    Xor(Xor(Rotr(x, 6), Rotr(x, 11)), Rotr(x, 25))
  }

  function SmallSigma0(x: Word): Word {
    Xor(Xor(Rotr(x, 7), Rotr(x, 18)), Shr(x, 3))
  }

  function SmallSigma1(x: Word): Word {
    Xor(Xor(Rotr(x, 17), Rotr(x, 19)), Shr(x, 10))
  }

  /** The round constants: section 4.2.2 of FIPS 180-4. */
  function RoundConstants(): (k: seq<Word>)
    ensures |k| == 64
  {
    [1116352408, 1899447441, 3049323471, 3921009573, 961987163, 1508970993, 2453635748, 2870763221]
    + [3624381080, 310598401, 607225278, 1426881987, 1925078388, 2162078206, 2614888103, 3248222580]
    + [3835390401, 4022224774, 264347078, 604807628, 770255983, 1249150122, 1555081692, 1996064986]
    + [2554220882, 2821834349, 2952996808, 3210313671, 3336571891, 3584528711, 113926993, 338241895]
    + [666307205, 773529912, 1294757372, 1396182291, 1695183700, 1986661051, 2177026350, 2456956037]
    + [2730485921, 2820302411, 3259730800, 3345764771, 3516065817, 3600352804, 4094571909, 275423344]
    + [430227734, 506948616, 659060556, 883997877, 958139571, 1322822218, 1537002063, 1747873779]
    + [1955562222, 2024104815, 2227730452, 2361852424, 2428436474, 2756734187, 3204031479, 3329325298]
  }

  // ---------------------------------------------------------------- hash computation: section 6.2.2 of FIPS 180-4

  datatype Registers = Registers(a: Word, b: Word, c: Word, d: Word, e: Word, f: Word, g: Word, h: Word)

  /** The initial hash value: section 5.3.3 of FIPS 180-4. */
  function InitialHash(): Registers {
    Registers(1779033703, 3144134277, 1013904242, 2773480762, 1359893119, 2600822924, 528734635, 1541459225)
  }

  /** Four bytes as a word, the first in the highest place. */
  function BigEndian(b0: Byte, b1: Byte, b2: Byte, b3: Byte): Word {
    (b0 as int) * 0x100_0000 + (b1 as int) * 0x1_0000 + (b2 as int) * 0x100 + b3 as int
  }

  /** Step 1: the message schedule. */
  function Schedule(block: Block, t: nat): Word
    requires t < 64
    decreases t, block
  {
    if t < 16 then BigEndian(block[4 * t], block[4 * t + 1], block[4 * t + 2], block[4 * t + 3])
    else
      Add(Add(SmallSigma1(Schedule(block, t - 2)), Schedule(block, t - 7)),
          Add(SmallSigma0(Schedule(block, t - 15)), Schedule(block, t - 16)))
  }

  /** Step 3: one round. */
  function Round(v: Registers, k: Word, w: Word): Registers {
    var t1 := Add(Add(Add(Add(v.h, BigSigma1(v.e)), Ch(v.e, v.f, v.g)), k), w);
    var t2 := Add(BigSigma0(v.a), Maj(v.a, v.b, v.c));
    Registers(Add(t1, t2), v.a, v.b, v.c, Add(v.d, t1), v.e, v.f, v.g)
  }

  /** Steps 2 and 3: the working variables after the first `n` rounds. */
  function Rounds(v: Registers, block: Block, n: nat): Registers
    requires n <= 64
    decreases n, block
  {
    if n == 0 then v else Round(Rounds(v, block, n - 1), RoundConstants()[n - 1], Schedule(block, n - 1))
  }

  /** Step 4: the intermediate hash value after a block. */
  function Compress(v: Registers, block: Block): Registers {
    var r := Rounds(v, block, 64);
    Registers(Add(v.a, r.a), Add(v.b, r.b), Add(v.c, r.c), Add(v.d, r.d),
              Add(v.e, r.e), Add(v.f, r.f), Add(v.g, r.g), Add(v.h, r.h))
  }

  // ---------------------------------------------------------------- JavaScript's 32-bit operators

  /** `x + y | 0` */
  function JsAdd(x: int, y: int): Int32 {
    Wrap(x + y)
  }

  function JsAnd(x: int, y: int): Int32 {
    Wrap(And(Unsigned(x), Unsigned(y)))
  }

  function JsXor(x: int, y: int): Int32 {
    Wrap(Xor(Unsigned(x), Unsigned(y)))
  }

  function JsNot(x: int): Int32 {
    Wrap(Not(Unsigned(x)))
  }

  /** `x >>> n` */
  function JsShr(x: int, n: nat): Word
    requires n < 32
  {
    Shr(Unsigned(x), n)
  }

  function JsRotr(x: Int32, n: nat): Int32
    requires 0 < n < 32
  {
    JsOr(JsShr(x, n), JsShl(x, 32 - n))
  }

  // ---------------------------------------------------------------- signed arithmetic refines words

  /** A sum that is wrapped now is the sum of the words. */
  lemma SumWraps(x: int, y: int)
    ensures Unsigned(JsAdd(x, y)) == Add(Unsigned(x), Unsigned(y))
  {
    WrapIsUnsigned(x + y);
  }

  lemma OperatorsAgree(x: int, y: int)
    ensures Unsigned(JsAnd(x, y)) == And(Unsigned(x), Unsigned(y))
    ensures Unsigned(JsOr(x, y)) == Or(Unsigned(x), Unsigned(y))
    ensures Unsigned(JsXor(x, y)) == Xor(Unsigned(x), Unsigned(y))
    ensures Unsigned(JsNot(x)) == Not(Unsigned(x))
  {
    hide And, Or, Xor, Not, Wrap;
    WrapIsUnsigned(And(Unsigned(x), Unsigned(y)));
    WrapIsUnsigned(Or(Unsigned(x), Unsigned(y)));
    WrapIsUnsigned(Xor(Unsigned(x), Unsigned(y)));
    WrapIsUnsigned(Not(Unsigned(x)));
  }

  lemma ShiftsAgree(x: int, n: nat)
    requires n < 32
    ensures Unsigned(JsShr(x, n)) == Shr(Unsigned(x), n)
    ensures Unsigned(JsShl(x, n)) == Shl(Unsigned(x), n)
  {
    hide Shr, Shl, Wrap;
    WrapIsUnsigned(Shr(Unsigned(x), n));
    WrapIsUnsigned(Shl(Unsigned(x), n));
  }

  lemma RotationsAgree(x: Int32, n: nat)
    requires 0 < n < 32
    ensures Unsigned(JsRotr(x, n)) == Rotr(Unsigned(x), n)
  {
    hide Or, Shr, Shl, Wrap, JsOr, JsShr, JsShl;
    ShiftsAgree(x, n);
    ShiftsAgree(x, 32 - n);
    OperatorsAgree(JsShr(x, n), JsShl(x, 32 - n));
  }

  lemma ThreeXor(x: int, y: int, z: int)
    ensures Unsigned(JsXor(JsXor(x, y), z)) == Xor(Xor(Unsigned(x), Unsigned(y)), Unsigned(z))
  {
    hide Xor, JsXor, Unsigned;
    OperatorsAgree(x, y);
    OperatorsAgree(JsXor(x, y), z);
  }

  // ---------------------------------------------------------------- bytes to words

  lemma FourBytes(b0: Byte, b1: Byte, b2: Byte, b3: Byte)
    ensures Or(Or(Or(Shl(b0, 24), Shl(b1, 16)), Shl(b2, 8)), b3) == BigEndian(b0, b1, b2, b3)
  {
    WordSize();
    hide Bitwise, Pow2;
    assert Shl(b0, 24) == b0 * 0x100_0000 && Shl(b1, 16) == b1 * 0x1_0000 && Shl(b2, 8) == b2 * 0x100;
    OrApart(b0, b1 * 0x1_0000, 24, 32);
    OrApart(b0 * 0x100 + b1, b2 * 0x100, 16, 32);
    OrApart((b0 * 0x100 + b1) * 0x100 + b2, b3, 8, 32);
  }

  // ---------------------------------------------------------------- the code's expressions

  function JsSmall0(h: Int32): Int32 {
    JsXor(JsXor(JsRotr(h, 7), JsRotr(h, 18)), JsShr(h, 3))
  }

  function JsSmall1(l: Int32): Int32 {
    JsXor(JsXor(JsRotr(l, 17), JsRotr(l, 19)), JsShr(l, 10))
  }

  function JsBig0(m: Int32): Int32 {
    JsXor(JsXor(JsRotr(m, 2), JsRotr(m, 13)), JsRotr(m, 22))
  }

  function JsBig1(r: Int32): Int32 {
    JsXor(JsXor(JsRotr(r, 6), JsRotr(r, 11)), JsRotr(r, 25))
  }

  function JsMaj(m: Int32, n: Int32, p: Int32): Int32 {
    JsXor(JsXor(JsAnd(m, n), JsAnd(m, p)), JsAnd(n, p))
  }

  function JsCh(r: Int32, u: Int32, v: Int32): Int32 {
    JsXor(JsAnd(r, u), JsAnd(JsNot(r), v))
  }

  function JsWord(b0: Byte, b1: Byte, b2: Byte, b3: Byte): Int32 {
    JsOr(JsOr(JsOr(JsShl(b0, 24), JsShl(b1, 16)), JsShl(b2, 8)), b3)
  }

  lemma SmallAgree(h: Int32)
    ensures Unsigned(JsSmall0(h)) == SmallSigma0(Unsigned(h))
    ensures Unsigned(JsSmall1(h)) == SmallSigma1(Unsigned(h))
  {
    hide Xor, Rotr, Shr, JsXor, JsRotr, JsShr, Unsigned;
    RotationsAgree(h, 7);
    RotationsAgree(h, 18);
    ShiftsAgree(h, 3);
    ThreeXor(JsRotr(h, 7), JsRotr(h, 18), JsShr(h, 3));
    RotationsAgree(h, 17);
    RotationsAgree(h, 19);
    ShiftsAgree(h, 10);
    ThreeXor(JsRotr(h, 17), JsRotr(h, 19), JsShr(h, 10));
  }

  lemma BigAgree(h: Int32)
    ensures Unsigned(JsBig0(h)) == BigSigma0(Unsigned(h))
    ensures Unsigned(JsBig1(h)) == BigSigma1(Unsigned(h))
  {
    hide Xor, Rotr, JsXor, JsRotr, Unsigned;
    RotationsAgree(h, 2);
    RotationsAgree(h, 13);
    RotationsAgree(h, 22);
    ThreeXor(JsRotr(h, 2), JsRotr(h, 13), JsRotr(h, 22));
    RotationsAgree(h, 6);
    RotationsAgree(h, 11);
    RotationsAgree(h, 25);
    ThreeXor(JsRotr(h, 6), JsRotr(h, 11), JsRotr(h, 25));
  }

  lemma ChoicesAgree(x: Int32, y: Int32, z: Int32)
    ensures Unsigned(JsMaj(x, y, z)) == Maj(Unsigned(x), Unsigned(y), Unsigned(z))
    ensures Unsigned(JsCh(x, y, z)) == Ch(Unsigned(x), Unsigned(y), Unsigned(z))
  {
    hide And, Or, Xor, Not, JsAnd, JsOr, JsXor, JsNot, Unsigned;
    OperatorsAgree(x, y);
    OperatorsAgree(x, z);
    OperatorsAgree(y, z);
    OperatorsAgree(JsNot(x), z);
    ThreeXor(JsAnd(x, y), JsAnd(x, z), JsAnd(y, z));
    OperatorsAgree(JsAnd(x, y), JsAnd(JsNot(x), z));
  }

  lemma WordsAgree(b0: Byte, b1: Byte, b2: Byte, b3: Byte)
    ensures Unsigned(JsWord(b0, b1, b2, b3)) == BigEndian(b0, b1, b2, b3)
  {
    WrapIsUnsigned(b0);
    WrapIsUnsigned(b1);
    WrapIsUnsigned(b2);
    WrapIsUnsigned(b3);
    hide Or, Shl, JsOr, JsShl, Unsigned;
    ShiftsAgree(b0, 24);
    ShiftsAgree(b1, 16);
    ShiftsAgree(b2, 8);
    OperatorsAgree(JsShl(b0, 24), JsShl(b1, 16));
    OperatorsAgree(JsOr(JsShl(b0, 24), JsShl(b1, 16)), JsShl(b2, 8));
    OperatorsAgree(JsOr(JsOr(JsShl(b0, 24), JsShl(b1, 16)), JsShl(b2, 8)), b3);
    FourBytes(b0, b1, b2, b3);
  }

  lemma AddGroup(x: Word, y: Word, z: Word)
    ensures Add(Add(x, y), z) == Add(x, Add(y, z))
    ensures Add(x, y) == Add(y, x)
  {
    hide Add;
    AddWraps(x, y);
    AddWraps(y, x);
    AddWraps(y, z);
    AddWraps(Add(x, y), z);
    AddWraps(x, Add(y, z));
  }

  lemma AddWraps(x: Word, y: Word)
    ensures Add(x, y) == if x + y < TWO32 then x + y else x + y - TWO32
  {
  }

  /** The code groups and orders the sums differently. */
  lemma AddGroups(a: Word, b: Word, c: Word, d: Word, e: Word)
    ensures Add(Add(a, b), Add(Add(c, d), e)) == Add(Add(Add(Add(a, b), c), d), e)
    ensures Add(Add(a, b), Add(c, d)) == Add(Add(d, c), Add(b, a))
  {
    hide Add;
    var ab := Add(a, b);
    AddGroup(ab, c, d);
    AddGroup(ab, Add(c, d), e);
    AddGroup(a, b, c);
    AddGroup(c, d, e);
    AddGroup(ab, Add(c, d), 0);
    AddGroup(d, c, 0);
    AddGroup(b, a, 0);
  }
}
