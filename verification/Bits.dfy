/** Bitwise operators on 32-bit words, defined digit by digit on the numbers they stand for. */
module Bits {
  const TWO31: int := 0x8000_0000
  const TWO32: int := 0x1_0000_0000

  type Word = x: int | 0 <= x < 0x1_0000_0000

  type Int32 = x: int | -0x8000_0000 <= x < 0x8000_0000

  function Pow2(n: nat): (p: nat)
    ensures p > 0
  {
    if n == 0 then 1 else 2 * Pow2(n - 1)
  }

  const AND := (a: bool, b: bool) => a && b
  const OR := (a: bool, b: bool) => a || b
  const XOR := (a: bool, b: bool) => a != b

  /** Applies an operation to the low `n` bits of two numbers. */
  function Bitwise(op: (bool, bool) -> bool, x: nat, y: nat, n: nat): (z: nat)
    ensures z < Pow2(n)
    decreases n, x, y
  {
    if n == 0 then 0
    else 2 * Bitwise(op, x / 2, y / 2, n - 1) + (if op(x % 2 == 1, y % 2 == 1) then 1 else 0)
  }

  lemma WordSize()
    ensures Pow2(8) == 0x100 && Pow2(16) == 0x1_0000 && Pow2(24) == 0x100_0000 && Pow2(32) == TWO32
  {
    assert Pow2(4) == 16;
    assert Pow2(8) == 16 * Pow2(4);
    assert Pow2(12) == 16 * Pow2(8);
    assert Pow2(16) == 16 * Pow2(12);
    assert Pow2(20) == 16 * Pow2(16);
    assert Pow2(24) == 16 * Pow2(20);
    assert Pow2(28) == 16 * Pow2(24);
    assert Pow2(32) == 16 * Pow2(28);
  }

  function And(x: Word, y: Word): Word {
    WordSize();
    Bitwise(AND, x, y, 32)
  }

  function Or(x: Word, y: Word): Word {
    WordSize();
    Bitwise(OR, x, y, 32)
  }

  function Xor(x: Word, y: Word): Word {
    WordSize();
    Bitwise(XOR, x, y, 32)
  }

  function Not(x: Word): Word {
    TWO32 - 1 - x
  }

  function Shr(x: Word, n: nat): Word
    decreases n, x
  {
    if n == 0 then x else Shr(x / 2, n - 1)
  }

  function Shl(x: Word, n: nat): Word {
    x * Pow2(n) % TWO32
  }

  // ---------------------------------------------------------------- JavaScript's signed numbers

  /** ToUint32 of a whole number. */
  function Unsigned(x: int): Word {
    x % TWO32
  }

  /** ToInt32 of a whole number: `x | 0`. */
  function Wrap(x: int): Int32 {
    var w := x % TWO32;
    if w >= TWO31 then w - TWO32 else w
  }

  function JsOr(x: int, y: int): Int32 {
    Wrap(Or(Unsigned(x), Unsigned(y)))
  }

  /** `x << n` */
  function JsShl(x: int, n: nat): Int32
    requires n < 32
  {
    Wrap(Shl(Unsigned(x), n))
  }

  /** `x >> n`, which keeps the sign: the quotient rounded down. */
  function JsSar(x: int, n: nat): (r: Int32)
    requires n < 32
    ensures Wrap(x) >= 0 ==> 0 <= r <= Wrap(x)
    ensures Wrap(x) < 0 ==> r < 0
  {
    QuotientIsSmall(Wrap(x), Pow2(n));
    Wrap(x) / Pow2(n)
  }

  lemma QuotientIsSmall(x: int, p: nat)
    requires p > 0
    ensures x >= 0 ==> 0 <= x / p <= x
    ensures x < 0 ==> x <= x / p < 0
  {
    var q := x / p;
    assert x == q * p + x % p && (q + 1) * p == q * p + p;
    TimesGrows(q, p);
    TimesGrows(q + 1, p);
  }

  lemma TimesGrows(q: int, p: nat)
    requires p > 0
    ensures q >= 0 ==> q * p >= q
    ensures q <= 0 ==> q * p <= q
  {
  }

  lemma WrapIsUnsigned(x: int)
    ensures Unsigned(Wrap(x)) == Unsigned(x)
    ensures 0 <= x < TWO32 ==> Unsigned(x) == x
  {
  }

  // ---------------------------------------------------------------- what the operators mean

  lemma {:induction false} OrNothing(x: nat, n: nat)
    requires x < Pow2(n)
    ensures Bitwise(OR, x, 0, n) == x
    decreases n
  {
    if n <= 0 {
    } else {
      OrNothing(x / 2, n - 1);
    }
  }

  /** Numbers without a common bit: the upper one is a multiple of a power the lower one is below. */
  lemma {:induction false} OrApart(x: nat, y: nat, k: nat, n: nat)
    requires y < Pow2(k) && k <= n && x * Pow2(k) < Pow2(n)
    ensures Bitwise(OR, x * Pow2(k), y, n) == x * Pow2(k) + y
    decreases k
  {
    if k == 0 {
      OrNothing(x, n);
    } else {
      var h := x * Pow2(k - 1);
      assert x * Pow2(k) == 2 * h;
      OrApart(x, y / 2, k - 1, n - 1);
    }
  }

  lemma OneMoreBit(x: nat, p: nat, n: nat)
    requires p > 0 && n > 0
    requires Bitwise(AND, x / 2, p - 1, n - 1) == x / 2 % p
    ensures Bitwise(AND, x, 2 * p - 1, n) == x % (2 * p)
  {
    assert (2 * p - 1) / 2 == p - 1 && (2 * p - 1) % 2 == 1;
    HalvedRemainder(x, p);
  }

  lemma PowerDoubles(k: nat)
    requires k > 0
    ensures Pow2(k) == 2 * Pow2(k - 1)
  {
  }

  /** Masking with the low `k` bits is the remainder. */
  lemma {:induction false} MaskIsRemainder(x: nat, k: nat, n: nat)
    requires k <= n
    ensures Bitwise(AND, x, Pow2(k) - 1, n) == x % Pow2(k)
    decreases n
  {
    hide Bitwise;
    if k == 0 {
      AndNothing(x, n);
    } else {
      MaskIsRemainder(x / 2, k - 1, n - 1);
      OneMoreBit(x, Pow2(k - 1), n);
      PowerDoubles(k);
      hide Pow2;
    }
  }

  lemma {:induction false} AndNothing(x: nat, n: nat)
    ensures Bitwise(AND, x, 0, n) == 0
    decreases n
  {
    if n <= 0 {
    } else {
      AndNothing(x / 2, n - 1);
    }
  }

  lemma HalvedRemainder(x: nat, p: nat)
    requires p > 0
    ensures x % (2 * p) == 2 * (x / 2 % p) + x % 2
  {
    var q := x / 2 / p;
    assert x / 2 == q * p + x / 2 % p;
    assert x == q * (2 * p) + (2 * (x / 2 % p) + x % 2);
    RemainderIs(x, q, 2 * p, 2 * (x / 2 % p) + x % 2);
  }

  lemma RemainderIs(x: int, q: int, d: int, r: int)
    requires 0 <= r < d && x == q * d + r
    ensures x % d == r && x / d == q
  {
    var k, m := x / d, x % d;
    assert x == k * d + m;
    assert (k - q) * d == k * d - q * d;
    if k != q {
      MultiplesAreFar(k - q, d);
    }
  }

  lemma MultiplesAreFar(s: int, d: int)
    requires s != 0 && d > 0
    ensures s * d >= d || s * d <= -d
  {
    if s > 0 {
      assert s * d >= d;
    } else {
      assert s * d <= -d;
    }
  }

  /** Shifting right is dividing. */
  lemma {:induction false} ShrIsQuotient(x: Word, n: nat)
    ensures Shr(x, n) == x / Pow2(n)
    decreases n
  {
    if n <= 0 {
    } else {
      ShrIsQuotient(x / 2, n - 1);
      HalvedQuotient(x, Pow2(n - 1));
    }
  }

  lemma HalvedQuotient(x: nat, p: nat)
    requires p > 0
    ensures x / 2 / p == x / (2 * p)
  {
    var q := x / 2 / p;
    assert x / 2 == q * p + x / 2 % p;
    assert x == q * (2 * p) + (2 * (x / 2 % p) + x % 2);
    RemainderIs(x, q, 2 * p, 2 * (x / 2 % p) + x % 2);
  }

  // ---------------------------------------------------------------- on words

  lemma Mask(x: Word, m: Word, k: nat, p: nat)
    requires k <= 32 && p == Pow2(k) && m == p - 1
    ensures And(x, m) == x % p
  {
    MaskIsRemainder(x, k, 32);
  }

  lemma ShiftDown(x: Word, k: nat, p: nat)
    requires p == Pow2(k)
    ensures Shr(x, k) == x / p
  {
    ShrIsQuotient(x, k);
  }

  lemma ShiftUp(x: Word, k: nat, p: nat)
    requires p == Pow2(k) && x * p < 0x1_0000_0000
    ensures Shl(x, k) == x * p
  {
  }

  /** A number moved up by `k` bits, joined with one of at most `k` bits. */
  lemma Join(x: Word, y: Word, k: nat, p: nat)
    requires k <= 32 && p == Pow2(k) && y < p && x * p < 0x1_0000_0000
    ensures Or(Shl(x, k), y) == x * p + y
  {
    WordSize();
    ShiftUp(x, k, p);
    OrApart(x, y, k, 32);
  }

  lemma SmallPowers()
    ensures Pow2(0) == 1 && Pow2(1) == 2 && Pow2(2) == 4 && Pow2(3) == 8 && Pow2(4) == 16 && Pow2(5) == 32
            && Pow2(6) == 64
  {
    WordSize();
  }

  lemma {:induction false} BitwiseOrCommutes(x: nat, y: nat, n: nat)
    ensures Bitwise(OR, x, y, n) == Bitwise(OR, y, x, n)
    decreases n
  {
    if n <= 0 {
    } else {
      BitwiseOrCommutes(x / 2, y / 2, n - 1);
    }
  }

  lemma OrCommutes(x: Word, y: Word)
    ensures Or(x, y) == Or(y, x)
  {
    BitwiseOrCommutes(x, y, 32);
  }

  lemma {:induction false} OrIsAtLeast(x: nat, y: nat, n: nat)
    requires x < Pow2(n)
    ensures Bitwise(OR, x, y, n) >= x
    decreases n
  {
    if n == 0 {
    } else {
      OrIsAtLeast(x / 2, y / 2, n - 1);
    }
  }

  /** Or keeps a negative number negative. */
  lemma OrKeepsSign(x: int, y: Word)
    requires Wrap(x) < 0
    ensures JsOr(x, y) < 0
  {
    WordSize();
    OrIsAtLeast(Unsigned(x), Unsigned(y), 32);
  }
}
