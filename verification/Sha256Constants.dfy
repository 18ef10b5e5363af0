/** Where the constants of SHA-256 come from: the roots of prime numbers. */
module Sha256Constants {
  import opened Bits
  import opened Sha256

  /** The first sixty-four prime numbers. */
  function Primes(): (p: seq<nat>)
    ensures |p| == 64
  {
    [2, 3, 5, 7, 11, 13, 17, 19]
    + [23, 29, 31, 37, 41, 43, 47, 53]
    + [59, 61, 67, 71, 73, 79, 83, 89]
    + [97, 101, 103, 107, 109, 113, 127, 131]
    + [137, 139, 149, 151, 157, 163, 167, 173]
    + [179, 181, 191, 193, 197, 199, 211, 223]
    + [227, 229, 233, 239, 241, 251, 257, 263]
    + [269, 271, 277, 281, 283, 293, 307, 311]
  }

  /** `k` is the first 32 bits of the fractional part of the cube root of `p`, whose whole part is `w`. */
  predicate CubeRoot(p: nat, w: nat, k: Word) {
    var r := w * TWO32 + k;
    r * r * r <= p * TWO32 * TWO32 * TWO32 < (r + 1) * (r + 1) * (r + 1)
  }

  /** The same of the square root. */
  predicate SquareRoot(p: nat, w: nat, k: Word) {
    var r := w * TWO32 + k;
    r * r <= p * TWO32 * TWO32 < (r + 1) * (r + 1)
  }

  ghost predicate IsRoundConstant(i: nat)
    requires i < 64
  {
    exists w :: CubeRoot(Primes()[i], w, RoundConstants()[i])
  }

  lemma FirstFour(i: nat)
    requires 0 <= i < 4
    ensures IsRoundConstant(i)
  {
    assert CubeRoot(2, 1, 1116352408) && CubeRoot(3, 1, 1899447441);
    assert CubeRoot(5, 1, 3049323471) && CubeRoot(7, 1, 3921009573);
    hide CubeRoot;
    assert Primes()[i] == [2, 3, 5, 7][i];
    assert RoundConstants()[i] == [1116352408, 1899447441, 3049323471, 3921009573][i];
  }

  lemma NextFour(i: nat)
    requires 4 <= i < 8
    ensures IsRoundConstant(i)
  {
    assert CubeRoot(11, 2, 961987163) && CubeRoot(13, 2, 1508970993);
    assert CubeRoot(17, 2, 2453635748) && CubeRoot(19, 2, 2870763221);
    hide CubeRoot;
    assert Primes()[i] == [11, 13, 17, 19][i - 4];
    assert RoundConstants()[i] == [961987163, 1508970993, 2453635748, 2870763221][i - 4];
  }

  lemma RowTwo(i: nat)
    requires 8 <= i < 16
    ensures IsRoundConstant(i)
  {
    assert CubeRoot(23, 2, 3624381080) && CubeRoot(29, 3, 310598401);
    assert CubeRoot(31, 3, 607225278) && CubeRoot(37, 3, 1426881987);
    assert CubeRoot(41, 3, 1925078388) && CubeRoot(43, 3, 2162078206);
    assert CubeRoot(47, 3, 2614888103) && CubeRoot(53, 3, 3248222580);
    hide CubeRoot;
    assert Primes()[i] == [23, 29, 31, 37, 41, 43, 47, 53][i - 8];
    assert RoundConstants()[i]
        == [3624381080, 310598401, 607225278, 1426881987, 1925078388, 2162078206, 2614888103, 3248222580][i - 8];
  }

  lemma RowThree(i: nat)
    requires 16 <= i < 24
    ensures IsRoundConstant(i)
  {
    assert CubeRoot(59, 3, 3835390401) && CubeRoot(61, 3, 4022224774);
    assert CubeRoot(67, 4, 264347078) && CubeRoot(71, 4, 604807628);
    assert CubeRoot(73, 4, 770255983) && CubeRoot(79, 4, 1249150122);
    assert CubeRoot(83, 4, 1555081692) && CubeRoot(89, 4, 1996064986);
    hide CubeRoot;
    assert Primes()[i] == [59, 61, 67, 71, 73, 79, 83, 89][i - 16];
    assert RoundConstants()[i]
        == [3835390401, 4022224774, 264347078, 604807628, 770255983, 1249150122, 1555081692, 1996064986][i - 16];
  }

  lemma RowFour(i: nat)
    requires 24 <= i < 32
    ensures IsRoundConstant(i)
  {
    assert CubeRoot(97, 4, 2554220882) && CubeRoot(101, 4, 2821834349);
    assert CubeRoot(103, 4, 2952996808) && CubeRoot(107, 4, 3210313671);
    assert CubeRoot(109, 4, 3336571891) && CubeRoot(113, 4, 3584528711);
    assert CubeRoot(127, 5, 113926993) && CubeRoot(131, 5, 338241895);
    hide CubeRoot;
    assert Primes()[i] == [97, 101, 103, 107, 109, 113, 127, 131][i - 24];
    assert RoundConstants()[i]
        == [2554220882, 2821834349, 2952996808, 3210313671, 3336571891, 3584528711, 113926993, 338241895][i - 24];
  }

  lemma RowFive(i: nat)
    requires 32 <= i < 40
    ensures IsRoundConstant(i)
  {
    assert CubeRoot(137, 5, 666307205) && CubeRoot(139, 5, 773529912);
    assert CubeRoot(149, 5, 1294757372) && CubeRoot(151, 5, 1396182291);
    assert CubeRoot(157, 5, 1695183700) && CubeRoot(163, 5, 1986661051);
    assert CubeRoot(167, 5, 2177026350) && CubeRoot(173, 5, 2456956037);
    hide CubeRoot;
    assert Primes()[i] == [137, 139, 149, 151, 157, 163, 167, 173][i - 32];
    assert RoundConstants()[i]
        == [666307205, 773529912, 1294757372, 1396182291, 1695183700, 1986661051, 2177026350, 2456956037][i - 32];
  }

  lemma RowSix(i: nat)
    requires 40 <= i < 48
    ensures IsRoundConstant(i)
  {
    assert CubeRoot(179, 5, 2730485921) && CubeRoot(181, 5, 2820302411);
    assert CubeRoot(191, 5, 3259730800) && CubeRoot(193, 5, 3345764771);
    assert CubeRoot(197, 5, 3516065817) && CubeRoot(199, 5, 3600352804);
    assert CubeRoot(211, 5, 4094571909) && CubeRoot(223, 6, 275423344);
    hide CubeRoot;
    assert Primes()[i] == [179, 181, 191, 193, 197, 199, 211, 223][i - 40];
    assert RoundConstants()[i]
        == [2730485921, 2820302411, 3259730800, 3345764771, 3516065817, 3600352804, 4094571909, 275423344][i - 40];
  }

  lemma RowSeven(i: nat)
    requires 48 <= i < 56
    ensures IsRoundConstant(i)
  {
    assert CubeRoot(227, 6, 430227734) && CubeRoot(229, 6, 506948616);
    assert CubeRoot(233, 6, 659060556) && CubeRoot(239, 6, 883997877);
    assert CubeRoot(241, 6, 958139571) && CubeRoot(251, 6, 1322822218);
    assert CubeRoot(257, 6, 1537002063) && CubeRoot(263, 6, 1747873779);
    hide CubeRoot;
    assert Primes()[i] == [227, 229, 233, 239, 241, 251, 257, 263][i - 48];
    assert RoundConstants()[i]
        == [430227734, 506948616, 659060556, 883997877, 958139571, 1322822218, 1537002063, 1747873779][i - 48];
  }

  lemma RowEight(i: nat)
    requires 56 <= i < 64
    ensures IsRoundConstant(i)
  {
    assert CubeRoot(269, 6, 1955562222) && CubeRoot(271, 6, 2024104815);
    assert CubeRoot(277, 6, 2227730452) && CubeRoot(281, 6, 2361852424);
    assert CubeRoot(283, 6, 2428436474) && CubeRoot(293, 6, 2756734187);
    assert CubeRoot(307, 6, 3204031479) && CubeRoot(311, 6, 3329325298);
    hide CubeRoot;
    assert Primes()[i] == [269, 271, 277, 281, 283, 293, 307, 311][i - 56];
    assert RoundConstants()[i]
        == [1955562222, 2024104815, 2227730452, 2361852424, 2428436474, 2756734187, 3204031479, 3329325298][i - 56];
  }

  /** The round constants are those of section 4.2.2 of FIPS 180-4: cube roots of the first 64 primes. */
  lemma RoundConstantsAreRoots(i: nat)
    requires i < 64
    ensures exists w :: CubeRoot(Primes()[i], w, RoundConstants()[i])
  {
    hide CubeRoot, Primes, RoundConstants;
    if i < 4 {
      FirstFour(i);
    } else if i < 8 {
      NextFour(i);
    } else if i < 16 {
      RowTwo(i);
    } else if i < 24 {
      RowThree(i);
    } else if i < 32 {
      RowFour(i);
    } else if i < 40 {
      RowFive(i);
    } else if i < 48 {
      RowSix(i);
    } else if i < 56 {
      RowSeven(i);
    } else {
      RowEight(i);
    }
  }

  /** The initial hash value is that of section 5.3.3: square roots of the first eight primes. */
  lemma InitialHashIsRoots()
    ensures var h, p := InitialHash(), Primes();
            && SquareRoot(p[0], 1, h.a) && SquareRoot(p[1], 1, h.b) && SquareRoot(p[2], 2, h.c)
            && SquareRoot(p[3], 2, h.d) && SquareRoot(p[4], 3, h.e) && SquareRoot(p[5], 3, h.f)
            && SquareRoot(p[6], 4, h.g) && SquareRoot(p[7], 4, h.h)
  {
    assert Primes()[..8] == [2, 3, 5, 7, 11, 13, 17, 19];
  }
}
