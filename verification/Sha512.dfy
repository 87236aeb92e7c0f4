/**
 * SHA-512 on pairs of 32-bit halves. The reference is the 64-bit compression function of sections 4.1.3, 4.2.3,
 * 5.3.5 and 6.4.2 of FIPS 180-4; the model follows the code's half words, its interleaved schedule array and
 * its carry function.
 */
module Sha512 {
  import opened Bytes
  import opened Seqs
  import opened Words

  // ---------------------------------------------------------------------------------------------
  // Constants
  // ---------------------------------------------------------------------------------------------

  type U32 = n: nat | n < 0x1_0000_0000

  /** The two 32-bit halves of a constant, as the code lists them. */
  datatype Constant = Constant(hi: U32, lo: U32)

  /** `m` is 2^64 times the cube root of `p`, rounded down. */
  predicate IsCubeRoot(p: nat, m: nat) {
    m * m * m <= p * 0x1_0000_0000_0000_0000_0000_0000_0000_0000_0000_0000_0000_0000 < (m + 1) * (m + 1) * (m + 1)
  }

  /** `m` is 2^64 times the square root of `p`, rounded down. */
  predicate IsSquareRoot(p: nat, m: nat) {
    m * m <= p * 0x1_0000_0000_0000_0000_0000_0000_0000_0000 < (m + 1) * (m + 1)
  }

  /**
   * A round constant: the first 64 bits of the fractional part of the cube root of a prime, as section 4.2.3 of
   * FIPS 180-4 defines it; `whole` is the whole part of the root. Every use in the tables below checks this.
   */
  function CubeRoot(prime: nat, whole: nat, hi: U32, lo: U32): Constant
    requires IsCubeRoot(prime, whole * 0x1_0000_0000_0000_0000 + hi * 0x1_0000_0000 + lo)
  {
    Constant(hi, lo)
  }

  /** An initial value: the first 64 bits of the fractional part of the square root of a prime. */
  function SquareRoot(prime: nat, whole: nat, hi: U32, lo: U32): Constant
    requires IsSquareRoot(prime, whole * 0x1_0000_0000_0000_0000 + hi * 0x1_0000_0000 + lo)
  {
    Constant(hi, lo)
  }

  const ROW0: seq<Constant> := [
    CubeRoot(2, 1, 0x428a2f98, 0xd728ae22), CubeRoot(3, 1, 0x71374491, 0x23ef65cd),
    CubeRoot(5, 1, 0xb5c0fbcf, 0xec4d3b2f), CubeRoot(7, 1, 0xe9b5dba5, 0x8189dbbc),
    CubeRoot(11, 2, 0x3956c25b, 0xf348b538), CubeRoot(13, 2, 0x59f111f1, 0xb605d019),
    CubeRoot(17, 2, 0x923f82a4, 0xaf194f9b), CubeRoot(19, 2, 0xab1c5ed5, 0xda6d8118)
  ]

  const ROW1: seq<Constant> := [
    CubeRoot(23, 2, 0xd807aa98, 0xa3030242), CubeRoot(29, 3, 0x12835b01, 0x45706fbe),
    CubeRoot(31, 3, 0x243185be, 0x4ee4b28c), CubeRoot(37, 3, 0x550c7dc3, 0xd5ffb4e2),
    CubeRoot(41, 3, 0x72be5d74, 0xf27b896f), CubeRoot(43, 3, 0x80deb1fe, 0x3b1696b1),
    CubeRoot(47, 3, 0x9bdc06a7, 0x25c71235), CubeRoot(53, 3, 0xc19bf174, 0xcf692694)
  ]

  const ROW2: seq<Constant> := [
    CubeRoot(59, 3, 0xe49b69c1, 0x9ef14ad2), CubeRoot(61, 3, 0xefbe4786, 0x384f25e3),
    CubeRoot(67, 4, 0x0fc19dc6, 0x8b8cd5b5), CubeRoot(71, 4, 0x240ca1cc, 0x77ac9c65),
    CubeRoot(73, 4, 0x2de92c6f, 0x592b0275), CubeRoot(79, 4, 0x4a7484aa, 0x6ea6e483),
    CubeRoot(83, 4, 0x5cb0a9dc, 0xbd41fbd4), CubeRoot(89, 4, 0x76f988da, 0x831153b5)
  ]

  const ROW3: seq<Constant> := [
    CubeRoot(97, 4, 0x983e5152, 0xee66dfab), CubeRoot(101, 4, 0xa831c66d, 0x2db43210),
    CubeRoot(103, 4, 0xb00327c8, 0x98fb213f), CubeRoot(107, 4, 0xbf597fc7, 0xbeef0ee4),
    CubeRoot(109, 4, 0xc6e00bf3, 0x3da88fc2), CubeRoot(113, 4, 0xd5a79147, 0x930aa725),
    CubeRoot(127, 5, 0x06ca6351, 0xe003826f), CubeRoot(131, 5, 0x14292967, 0x0a0e6e70)
  ]

  const ROW4: seq<Constant> := [
    CubeRoot(137, 5, 0x27b70a85, 0x46d22ffc), CubeRoot(139, 5, 0x2e1b2138, 0x5c26c926),
    CubeRoot(149, 5, 0x4d2c6dfc, 0x5ac42aed), CubeRoot(151, 5, 0x53380d13, 0x9d95b3df),
    CubeRoot(157, 5, 0x650a7354, 0x8baf63de), CubeRoot(163, 5, 0x766a0abb, 0x3c77b2a8),
    CubeRoot(167, 5, 0x81c2c92e, 0x47edaee6), CubeRoot(173, 5, 0x92722c85, 0x1482353b)
  ]

  const ROW5: seq<Constant> := [
    CubeRoot(179, 5, 0xa2bfe8a1, 0x4cf10364), CubeRoot(181, 5, 0xa81a664b, 0xbc423001),
    CubeRoot(191, 5, 0xc24b8b70, 0xd0f89791), CubeRoot(193, 5, 0xc76c51a3, 0x0654be30),
    CubeRoot(197, 5, 0xd192e819, 0xd6ef5218), CubeRoot(199, 5, 0xd6990624, 0x5565a910),
    CubeRoot(211, 5, 0xf40e3585, 0x5771202a), CubeRoot(223, 6, 0x106aa070, 0x32bbd1b8)
  ]

  const ROW6: seq<Constant> := [
    CubeRoot(227, 6, 0x19a4c116, 0xb8d2d0c8), CubeRoot(229, 6, 0x1e376c08, 0x5141ab53),
    CubeRoot(233, 6, 0x2748774c, 0xdf8eeb99), CubeRoot(239, 6, 0x34b0bcb5, 0xe19b48a8),
    CubeRoot(241, 6, 0x391c0cb3, 0xc5c95a63), CubeRoot(251, 6, 0x4ed8aa4a, 0xe3418acb),
    CubeRoot(257, 6, 0x5b9cca4f, 0x7763e373), CubeRoot(263, 6, 0x682e6ff3, 0xd6b2b8a3)
  ]

  const ROW7: seq<Constant> := [
    CubeRoot(269, 6, 0x748f82ee, 0x5defb2fc), CubeRoot(271, 6, 0x78a5636f, 0x43172f60),
    CubeRoot(277, 6, 0x84c87814, 0xa1f0ab72), CubeRoot(281, 6, 0x8cc70208, 0x1a6439ec),
    CubeRoot(283, 6, 0x90befffa, 0x23631e28), CubeRoot(293, 6, 0xa4506ceb, 0xde82bde9),
    CubeRoot(307, 6, 0xbef9a3f7, 0xb2c67915), CubeRoot(311, 6, 0xc67178f2, 0xe372532b)
  ]

  const ROW8: seq<Constant> := [
    CubeRoot(313, 6, 0xca273ece, 0xea26619c), CubeRoot(317, 6, 0xd186b8c7, 0x21c0c207),
    CubeRoot(331, 6, 0xeada7dd6, 0xcde0eb1e), CubeRoot(337, 6, 0xf57d4f7f, 0xee6ed178),
    CubeRoot(347, 7, 0x06f067aa, 0x72176fba), CubeRoot(349, 7, 0x0a637dc5, 0xa2c898a6),
    CubeRoot(353, 7, 0x113f9804, 0xbef90dae), CubeRoot(359, 7, 0x1b710b35, 0x131c471b)
  ]

  const ROW9: seq<Constant> := [
    CubeRoot(367, 7, 0x28db77f5, 0x23047d84), CubeRoot(373, 7, 0x32caab7b, 0x40c72493),
    CubeRoot(379, 7, 0x3c9ebe0a, 0x15c9bebc), CubeRoot(383, 7, 0x431d67c4, 0x9c100d4c),
    CubeRoot(389, 7, 0x4cc5d4be, 0xcb3e42b6), CubeRoot(397, 7, 0x597f299c, 0xfc657e2a),
    CubeRoot(401, 7, 0x5fcb6fab, 0x3ad6faec), CubeRoot(409, 7, 0x6c44198c, 0x4a475817)
  ]

  const CONSTANTS: seq<Constant> :=
    ROW0 + ROW1 + ROW2 + ROW3 + ROW4 + ROW5 + ROW6 + ROW7 + ROW8 + ROW9

  const INITIAL: seq<Constant> := [
    SquareRoot(2, 1, 0x6a09e667, 0xf3bcc908),
    SquareRoot(3, 1, 0xbb67ae85, 0x84caa73b),
    SquareRoot(5, 2, 0x3c6ef372, 0xfe94f82b),
    SquareRoot(7, 2, 0xa54ff53a, 0x5f1d36f1),
    SquareRoot(11, 3, 0x510e527f, 0xade682d1),
    SquareRoot(13, 3, 0x9b05688c, 0x2b3e6c1f),
    SquareRoot(17, 4, 0x1f83d9ab, 0xfb41bd6b),
    SquareRoot(19, 4, 0x5be0cd19, 0x137e2179)
  ]

  lemma {:induction false} ConstantCounts()
    ensures |CONSTANTS| == 80 && |INITIAL| == 8
  {
  }

  // ---------------------------------------------------------------------------------------------
  // The reference: 64-bit words
  // ---------------------------------------------------------------------------------------------

  function Ch(x: Word, y: Word, z: Word): (r: Word)
    requires |x| == |y| == |z|
    ensures |r| == |x|
  {
    Xor(And(x, y), And(Not(x), z))
  }

  function Maj(x: Word, y: Word, z: Word): (r: Word)
    requires |x| == |y| == |z|
    ensures |r| == |x|
  {
    Xor(Xor(And(x, y), And(x, z)), And(y, z))
  }

  function BigSigma0(x: Word): (r: Word)
    requires |x| == 64
    ensures |r| == 64
  {
    Xor(Xor(Rotr(x, 28), Rotr(x, 34)), Rotr(x, 39))
  }

  function BigSigma1(x: Word): (r: Word)
    requires |x| == 64
    ensures |r| == 64
  {
    Xor(Xor(Rotr(x, 14), Rotr(x, 18)), Rotr(x, 41))
  }

  function SmallSigma0(x: Word): (r: Word)
    requires |x| == 64
    ensures |r| == 64
  {
    Xor(Xor(Rotr(x, 1), Rotr(x, 8)), Shr(x, 7))
  }

  function SmallSigma1(x: Word): (r: Word)
    requires |x| == 64
    ensures |r| == 64
  {
    Xor(Xor(Rotr(x, 19), Rotr(x, 61)), Shr(x, 6))
  }

  // ---------------------------------------------------------------------------------------------
  // Half words
  // ---------------------------------------------------------------------------------------------

  type Half = x: Word | |x| == 32 witness ToBits(0, 32)
  type Full = x: Word | |x| == 64 witness ToBits(0, 64)

  datatype Pair = Pair(hi: Half, lo: Half) {
    function Joined(): Full { lo + hi }
  }

  function HalfCh(x: Half, y: Half, z: Half): Half { Xor(z, And(x, Xor(y, z))) }

  function HalfMaj(x: Half, y: Half, z: Half): Half { Or(And(x, y), And(z, Or(x, y))) }

  /** `x >>> n | y << 32 - n`: what a rotation or shift by `n` leaves in the half `x` when `y` is shifted in. */
  function Slide(x: Half, y: Half, n: nat): Half
    requires n <= 32
  {
    Or(Shr(x, n), Shl(y, 32 - n))
  }

  function HalfBigSigma0(x: Half, y: Half): Half { Xor(Xor(Slide(x, y, 28), Slide(y, x, 2)), Slide(y, x, 7)) }

  function HalfBigSigma1(x: Half, y: Half): Half { Xor(Xor(Slide(x, y, 14), Slide(x, y, 18)), Slide(y, x, 9)) }

  function SmallSigma0High(x: Half, y: Half): Half { Xor(Xor(Slide(x, y, 1), Slide(x, y, 8)), Shr(x, 7)) }

  function SmallSigma0Low(x: Half, y: Half): Half { Xor(Xor(Slide(x, y, 1), Slide(x, y, 8)), Slide(x, y, 7)) }

  function SmallSigma1High(x: Half, y: Half): Half { Xor(Xor(Slide(x, y, 19), Slide(y, x, 29)), Shr(x, 6)) }

  function SmallSigma1Low(x: Half, y: Half): Half { Xor(Xor(Slide(x, y, 19), Slide(y, x, 29)), Slide(x, y, 6)) }

  /** The carry out of a sum, seen from the wrapped sum and one of its terms. */
  function Carry(sum: Half, term: Half): nat { if Val(sum) < Val(term) then 1 else 0 }

  /** Sums of half words wrap around at 2^32. */
  function Sum2(x: Half, y: Half): Half { ToBits(Val(x) + Val(y), 32) }

  function Sum3(x: Half, y: Half, carry: nat): Half { ToBits(Val(x) + Val(y) + carry, 32) }

  // The halves of each bit function make up the 64-bit function.

  lemma {:induction false} XorJoined(a: Pair, b: Pair)
    ensures Xor(a.Joined(), b.Joined()) == Pair(Xor(a.hi, b.hi), Xor(a.lo, b.lo)).Joined()
  {
  }

  lemma {:induction false} RotrJoinedSmall(p: Pair, n: nat)
    requires n <= 32
    ensures Rotr(p.Joined(), n) == Pair(Slide(p.hi, p.lo, n), Slide(p.lo, p.hi, n)).Joined()
  {
  }

  lemma {:induction false} RotrJoinedLarge(p: Pair, n: nat)
    requires n <= 32
    ensures Rotr(p.Joined(), 32 + n) == Pair(Slide(p.lo, p.hi, n), Slide(p.hi, p.lo, n)).Joined()
  {
  }

  lemma {:induction false} ShrJoined(p: Pair, n: nat)
    requires n <= 32
    ensures Shr(p.Joined(), n) == Pair(Shr(p.hi, n), Slide(p.lo, p.hi, n)).Joined()
  {
  }

  lemma {:induction false} ChJoined(x: Pair, y: Pair, z: Pair)
    ensures Ch(x.Joined(), y.Joined(), z.Joined()) == Pair(HalfCh(x.hi, y.hi, z.hi), HalfCh(x.lo, y.lo, z.lo)).Joined()
  {
  }

  lemma {:induction false} MajJoined(x: Pair, y: Pair, z: Pair)
    ensures Maj(x.Joined(), y.Joined(), z.Joined())
         == Pair(HalfMaj(x.hi, y.hi, z.hi), HalfMaj(x.lo, y.lo, z.lo)).Joined()
  {
  }

  lemma {:induction false} BigSigma0Joined(p: Pair)
    ensures BigSigma0(p.Joined()) == Pair(HalfBigSigma0(p.hi, p.lo), HalfBigSigma0(p.lo, p.hi)).Joined()
  {
    RotrJoinedSmall(p, 28);
    RotrJoinedLarge(p, 2);
    RotrJoinedLarge(p, 7);
    XorTwice(Pair(Slide(p.hi, p.lo, 28), Slide(p.lo, p.hi, 28)), Pair(Slide(p.lo, p.hi, 2), Slide(p.hi, p.lo, 2)),
             Pair(Slide(p.lo, p.hi, 7), Slide(p.hi, p.lo, 7)));
  }

  lemma {:induction false} XorTwice(a: Pair, b: Pair, c: Pair)
    ensures Xor(Xor(a.Joined(), b.Joined()), c.Joined())
         == Pair(Xor(Xor(a.hi, b.hi), c.hi), Xor(Xor(a.lo, b.lo), c.lo)).Joined()
  {
    XorJoined(a, b);
    XorJoined(Pair(Xor(a.hi, b.hi), Xor(a.lo, b.lo)), c);
  }

  lemma {:induction false} BigSigma1Joined(p: Pair)
    ensures BigSigma1(p.Joined()) == Pair(HalfBigSigma1(p.hi, p.lo), HalfBigSigma1(p.lo, p.hi)).Joined()
  {
    RotrJoinedSmall(p, 14);
    RotrJoinedSmall(p, 18);
    RotrJoinedLarge(p, 9);
    XorTwice(Pair(Slide(p.hi, p.lo, 14), Slide(p.lo, p.hi, 14)), Pair(Slide(p.hi, p.lo, 18), Slide(p.lo, p.hi, 18)),
             Pair(Slide(p.lo, p.hi, 9), Slide(p.hi, p.lo, 9)));
  }

  lemma {:induction false} SmallSigma0Joined(p: Pair)
    ensures SmallSigma0(p.Joined()) == Pair(SmallSigma0High(p.hi, p.lo), SmallSigma0Low(p.lo, p.hi)).Joined()
  {
    RotrJoinedSmall(p, 1);
    RotrJoinedSmall(p, 8);
    ShrJoined(p, 7);
    XorTwice(Pair(Slide(p.hi, p.lo, 1), Slide(p.lo, p.hi, 1)), Pair(Slide(p.hi, p.lo, 8), Slide(p.lo, p.hi, 8)),
             Pair(Shr(p.hi, 7), Slide(p.lo, p.hi, 7)));
  }

  lemma {:induction false} SmallSigma1Joined(p: Pair)
    ensures SmallSigma1(p.Joined()) == Pair(SmallSigma1High(p.hi, p.lo), SmallSigma1Low(p.lo, p.hi)).Joined()
  {
    RotrJoinedSmall(p, 19);
    RotrJoinedLarge(p, 29);
    ShrJoined(p, 6);
    XorTwice(Pair(Slide(p.hi, p.lo, 19), Slide(p.lo, p.hi, 19)), Pair(Slide(p.lo, p.hi, 29), Slide(p.hi, p.lo, 29)),
             Pair(Shr(p.hi, 6), Slide(p.lo, p.hi, 6)));
  }

  // ---------------------------------------------------------------------------------------------
  // 64-bit sums from half sums and a carry
  // ---------------------------------------------------------------------------------------------

  lemma {:induction false} Powers()
    ensures Pow2(32) == 0x1_0000_0000 && Pow2(64) == 0x1_0000_0000_0000_0000
  {
    assert Pow2(8) == 0x100;
    Pow2Sum(8, 8);
    Pow2Sum(16, 16);
    Pow2Sum(32, 32);
  }

  lemma {:induction false} JoinedValue(p: Pair)
    ensures Val(p.Joined()) == Val(p.lo) + 0x1_0000_0000 * Val(p.hi)
    ensures Val(p.lo) < 0x1_0000_0000 && Val(p.hi) < 0x1_0000_0000
  {
    Powers();
    ValConcat(p.lo, p.hi);
    ValBound(p.lo);
    ValBound(p.hi);
  }

  lemma {:induction false} HalfValue(v: nat)
    ensures Val(ToBits(v, 32)) == v % 0x1_0000_0000
  {
    Powers();
    ValToBits(v, 32);
  }

  lemma {:induction false} CarryArithmetic(l1: nat, l2: nat, h1: nat, h2: nat)
    requires l1 < 0x1_0000_0000 && l2 < 0x1_0000_0000
    ensures var c := if (l1 + l2) % 0x1_0000_0000 < l1 then 1 else 0;
            (l1 + l2) % 0x1_0000_0000 + 0x1_0000_0000 * ((h1 + h2 + c) % 0x1_0000_0000)
               == (l1 + 0x1_0000_0000 * h1 + (l2 + 0x1_0000_0000 * h2)) % 0x1_0000_0000_0000_0000
  {
    var c := (l1 + l2) / 0x1_0000_0000;
    var q := (h1 + h2 + c) / 0x1_0000_0000;
    assert l1 + 0x1_0000_0000 * h1 + (l2 + 0x1_0000_0000 * h2)
        == (l1 + l2) % 0x1_0000_0000 + 0x1_0000_0000 * ((h1 + h2 + c) % 0x1_0000_0000) + 0x1_0000_0000_0000_0000 * q;
  }

  /** A sum whose carry is read off the first low term. */
  function AddFirst(x: Pair, y: Pair): Pair {
    var lo := Sum2(x.lo, y.lo);
    Pair(Sum3(x.hi, y.hi, Carry(lo, x.lo)), lo)
  }

  /** A sum whose carry is read off the second low term. */
  function AddSecond(x: Pair, y: Pair): Pair {
    var lo := Sum2(x.lo, y.lo);
    Pair(Sum3(x.hi, y.hi, Carry(lo, y.lo)), lo)
  }

  lemma {:induction false} CarryEitherWay(x: Half, y: Half)
    ensures Carry(Sum2(x, y), x) == Carry(Sum2(x, y), y)
  {
    HalfValue(Val(x) + Val(y));
    JoinedValue(Pair(x, y));
    WrapsEitherWay(Val(x), Val(y));
  }

  lemma {:induction false} WrapsEitherWay(x: nat, y: nat)
    requires x < 0x1_0000_0000 && y < 0x1_0000_0000
    ensures (x + y) % 0x1_0000_0000 < x <==> (x + y) % 0x1_0000_0000 < y
  {
    if x + y < 0x1_0000_0000 {
      assert (x + y) % 0x1_0000_0000 == x + y;
    } else {
      assert (x + y) % 0x1_0000_0000 == x + y - 0x1_0000_0000;
    }
  }

  lemma {:induction false} SumOfPairs(x: Pair, y: Pair, z: Pair)
    requires Val(z.lo) == (Val(x.lo) + Val(y.lo)) % 0x1_0000_0000
    requires Val(z.hi) == (Val(x.hi) + Val(y.hi) + Carry(z.lo, x.lo)) % 0x1_0000_0000
    ensures Val(z.Joined()) == (Val(x.Joined()) + Val(y.Joined())) % 0x1_0000_0000_0000_0000
  {
    JoinedValue(x);
    JoinedValue(y);
    JoinedValue(z);
    CarryArithmetic(Val(x.lo), Val(y.lo), Val(x.hi), Val(y.hi));
  }

  lemma {:induction false} AddFirstValue(x: Pair, y: Pair)
    ensures Val(AddFirst(x, y).Joined()) == (Val(x.Joined()) + Val(y.Joined())) % 0x1_0000_0000_0000_0000
  {
    HalfValue(Val(x.lo) + Val(y.lo));
    HalfValue(Val(x.hi) + Val(y.hi) + Carry(Sum2(x.lo, y.lo), x.lo));
    SumOfPairs(x, y, AddFirst(x, y));
  }

  /** Adding halves with the carry function is 64-bit addition. */
  lemma {:induction false} AddJoined(x: Pair, y: Pair)
    ensures AddFirst(x, y).Joined() == Add(x.Joined(), y.Joined())
    ensures AddSecond(x, y) == AddFirst(x, y)
  {
    CarryEitherWay(x.lo, y.lo);
    AddFirstValue(x, y);
    FullValue(Val(x.Joined()) + Val(y.Joined()));
    ValInjective(AddFirst(x, y).Joined(), Add(x.Joined(), y.Joined()));
  }

  // ---------------------------------------------------------------------------------------------
  // One round
  // ---------------------------------------------------------------------------------------------

  datatype Regs<W> = Regs(a: W, b: W, c: W, d: W, e: W, f: W, g: W, h: W)

  function JoinedRegs(r: Regs<Pair>): Regs<Full> {
    Regs(r.a.Joined(), r.b.Joined(), r.c.Joined(), r.d.Joined(), r.e.Joined(), r.f.Joined(), r.g.Joined(), r.h.Joined())
  }

  /** Step 3 of section 6.4.2 of FIPS 180-4. */
  function Round(s: Regs<Full>, k: Full, w: Full): Regs<Full> {
    var t1: Full := Add(Add(Add(Add(s.h, BigSigma1(s.e)), Ch(s.e, s.f, s.g)), k), w);
    var t2: Full := Add(BigSigma0(s.a), Maj(s.a, s.b, s.c));
    Regs(Add(t1, t2), s.a, s.b, s.c, Add(s.d, t1), s.e, s.f, s.g)
  }

  function HalfT1(r: Regs<Pair>, k: Pair, w: Pair): Pair {
    var x := AddFirst(r.h, Pair(HalfBigSigma1(r.e.hi, r.e.lo), HalfBigSigma1(r.e.lo, r.e.hi)));
    var x := AddSecond(x, Pair(HalfCh(r.e.hi, r.f.hi, r.g.hi), HalfCh(r.e.lo, r.f.lo, r.g.lo)));
    AddSecond(AddSecond(x, k), w)
  }

  function HalfT2(r: Regs<Pair>): Pair {
    AddFirst(Pair(HalfBigSigma0(r.a.hi, r.a.lo), HalfBigSigma0(r.a.lo, r.a.hi)),
             Pair(HalfMaj(r.a.hi, r.b.hi, r.c.hi), HalfMaj(r.a.lo, r.b.lo, r.c.lo)))
  }

  /** The body of the round loop. */
  function HalfRound(r: Regs<Pair>, k: Pair, w: Pair): Regs<Pair> {
    var t1, t2 := HalfT1(r, k, w), HalfT2(r);
    Regs(AddFirst(t1, t2), r.a, r.b, r.c, AddFirst(r.d, t1), r.e, r.f, r.g)
  }

  lemma {:induction false} HalfT1Joined(r: Regs<Pair>, k: Pair, w: Pair)
    ensures var s := JoinedRegs(r);
            HalfT1(r, k, w).Joined()
              == Add(Add(Add(Add(s.h, BigSigma1(s.e)), Ch(s.e, s.f, s.g)), k.Joined()), w.Joined())
  {
    var sigma := Pair(HalfBigSigma1(r.e.hi, r.e.lo), HalfBigSigma1(r.e.lo, r.e.hi));
    var ch := Pair(HalfCh(r.e.hi, r.f.hi, r.g.hi), HalfCh(r.e.lo, r.f.lo, r.g.lo));
    BigSigma1Joined(r.e);
    ChJoined(r.e, r.f, r.g);
    AddJoined(r.h, sigma);
    AddJoined(AddFirst(r.h, sigma), ch);
    AddJoined(AddSecond(AddFirst(r.h, sigma), ch), k);
    AddJoined(AddSecond(AddSecond(AddFirst(r.h, sigma), ch), k), w);
  }

  lemma {:induction false} HalfT2Joined(r: Regs<Pair>)
    ensures var s := JoinedRegs(r); HalfT2(r).Joined() == Add(BigSigma0(s.a), Maj(s.a, s.b, s.c))
  {
    BigSigma0Joined(r.a);
    MajJoined(r.a, r.b, r.c);
    AddJoined(Pair(HalfBigSigma0(r.a.hi, r.a.lo), HalfBigSigma0(r.a.lo, r.a.hi)),
              Pair(HalfMaj(r.a.hi, r.b.hi, r.c.hi), HalfMaj(r.a.lo, r.b.lo, r.c.lo)));
  }

  /** A round on halves is a round on 64-bit words. */
  lemma {:induction false} RoundRefines(r: Regs<Pair>, k: Pair, w: Pair)
    ensures JoinedRegs(HalfRound(r, k, w)) == Round(JoinedRegs(r), k.Joined(), w.Joined())
  {
    HalfT1Joined(r, k, w);
    HalfT2Joined(r);
    AddJoined(HalfT1(r, k, w), HalfT2(r));
    AddJoined(r.d, HalfT1(r, k, w));
  }

  // ---------------------------------------------------------------------------------------------
  // Message schedule and compression
  // ---------------------------------------------------------------------------------------------

  type Block = b: seq<Byte> | |b| == 128 witness seq(128, i => 0)

  /** Word `t` of the message schedule of section 6.4.2 of FIPS 180-4. */
  function Schedule(block: Block, t: nat): Full {
    if t < 16 then ToBits(BigEndian(block[8 * t..8 * t + 8]), 64)
    else Add(Add(Add(SmallSigma1(Schedule(block, t - 2)), Schedule(block, t - 7)),
                 SmallSigma0(Schedule(block, t - 15))),
             Schedule(block, t - 16))
  }

  function ConstantPair(c: Constant): Pair {
    Pair(ToBits(c.hi, 32), ToBits(c.lo, 32))
  }

  /** The 64-bit word of a constant is the number its halves spell. */
  lemma {:induction false} ConstantValue(c: Constant)
    ensures Val(ConstantPair(c).Joined()) == c.hi * 0x1_0000_0000 + c.lo
  {
    HalfNumber(c.hi);
    HalfNumber(c.lo);
    JoinedValue(ConstantPair(c));
  }

  function RoundConstant(t: nat): Full
    requires t < 80
  {
    ConstantCounts();
    ConstantPair(CONSTANTS[t]).Joined()
  }

  function Rounds(s: Regs<Full>, block: Block, t: nat): Regs<Full>
    requires t <= 80
    decreases t, block, s
  {
    if t == 0 then s else Round(Rounds(s, block, t - 1), RoundConstant(t - 1), Schedule(block, t - 1))
  }

  /** The chaining value after `block`. */
  function Compress(s: Regs<Full>, block: Block): Regs<Full> {
    var r := Rounds(s, block, 80);
    Regs(Add(s.a, r.a), Add(s.b, r.b), Add(s.c, r.c), Add(s.d, r.d),
         Add(s.e, r.e), Add(s.f, r.f), Add(s.g, r.g), Add(s.h, r.h))
  }

  lemma {:induction false} FullValue(v: nat)
    ensures Val(ToBits(v, 64)) == v % 0x1_0000_0000_0000_0000
  {
    Powers();
    ValToBits(v, 64);
  }

  lemma {:induction false} JoinedNumber(p: Pair)
    ensures p.Joined() == ToBits(Val(p.hi) * 0x1_0000_0000 + Val(p.lo), 64)
  {
    JoinedValue(p);
    ToBitsVal(p.Joined());
  }

  lemma {:induction false} JoinedIs(p: Pair, hi: nat, lo: nat)
    requires Val(p.hi) == hi && Val(p.lo) == lo
    ensures p.Joined() == ToBits(hi * 0x1_0000_0000 + lo, 64)
  {
    JoinedNumber(p);
    assert hi * 0x1_0000_0000 + lo == Val(p.hi) * 0x1_0000_0000 + Val(p.lo);
  }

  lemma {:induction false} HalfNumber(v: U32)
    ensures Val(ToBits(v, 32)) == v
  {
    HalfValue(v);
  }

  /** The pair of half words the code keeps at the indices `2 * t` and `2 * t + 1`. */
  function PairAt(w: seq<Half>, t: nat): Pair
    requires 2 * t + 1 < |w|
  {
    Pair(w[2 * t], w[2 * t + 1])
  }

  /** `readInt32BE`. */
  function ReadHalf(block: seq<Byte>, at: nat): Half
    requires at + 4 <= |block|
  {
    ToBits(BigEndian(block[at..at + 4]), 32)
  }

  lemma {:induction false} ReadPair(block: Block, t: nat)
    requires t < 16
    ensures Pair(ReadHalf(block, 8 * t), ReadHalf(block, 8 * t + 4)).Joined() == Schedule(block, t)
  {
    var s := block[8 * t..8 * t + 8];
    assert s[..4] == block[8 * t..8 * t + 4] && s[4..] == block[8 * t + 4..8 * t + 8];
    assert s[..4][0..4] == s[..4] && s[4..][0..4] == s[4..];
    EightBytes(s, Pair(ReadHalf(block, 8 * t), ReadHalf(block, 8 * t + 4)));
  }

  lemma {:induction false} HalfOfFour(q: seq<Byte>)
    requires |q| == 4
    ensures Val(ReadHalf(q, 0)) == BigEndian(q)
  {
    Whole(q);
    BigEndianFour(q);
    HalfNumber(BigEndian(q));
  }

  lemma {:induction false} EightBytes(s: seq<Byte>, p: Pair)
    requires |s| == 8 && p.hi == ReadHalf(s[..4], 0) && p.lo == ReadHalf(s[4..], 0)
    ensures p.Joined() == ToBits(BigEndian(s), 64)
  {
    HalfOfFour(s[..4]);
    HalfOfFour(s[4..]);
    JoinedIs(p, BigEndian(s[..4]), BigEndian(s[4..]));
    BigEndianEight(s);
  }

  /** The body of the schedule loop, from the pairs 15, 2, 7 and 16 places back. */
  function NextPair(w15: Pair, w2: Pair, w7: Pair, w16: Pair): Pair {
    var s0 := Pair(SmallSigma0High(w15.hi, w15.lo), SmallSigma0Low(w15.lo, w15.hi));
    var s1 := Pair(SmallSigma1High(w2.hi, w2.lo), SmallSigma1Low(w2.lo, w2.hi));
    AddSecond(AddSecond(AddFirst(s0, w7), s1), w16)
  }

  lemma {:induction false} NextPairRefines(w15: Pair, w2: Pair, w7: Pair, w16: Pair)
    ensures NextPair(w15, w2, w7, w16).Joined()
         == Add(Add(Add(SmallSigma1(w2.Joined()), w7.Joined()), SmallSigma0(w15.Joined())), w16.Joined())
  {
    var s0 := Pair(SmallSigma0High(w15.hi, w15.lo), SmallSigma0Low(w15.lo, w15.hi));
    var s1 := Pair(SmallSigma1High(w2.hi, w2.lo), SmallSigma1Low(w2.lo, w2.hi));
    SmallSigma0Joined(w15);
    SmallSigma1Joined(w2);
    AddJoined(s0, w7);
    AddJoined(AddFirst(s0, w7), s1);
    AddJoined(AddSecond(AddFirst(s0, w7), s1), w16);
    AddReorder(s0.Joined(), w7.Joined(), s1.Joined(), w16.Joined());
  }

  // The same computation on halves, as functions: what the loops below compute.

  function HalfSchedule(block: Block, t: nat): Pair
    decreases t, block
  {
    if t < 16 then Pair(ReadHalf(block, 8 * t), ReadHalf(block, 8 * t + 4))
    else NextPair(HalfSchedule(block, t - 15), HalfSchedule(block, t - 2), HalfSchedule(block, t - 7),
                  HalfSchedule(block, t - 16))
  }

  function HalfRounds(r: Regs<Pair>, block: Block, t: nat): Regs<Pair>
    requires t <= 80
    decreases t, block, r
  {
    ConstantCounts();
    if t == 0 then r
    else HalfRound(HalfRounds(r, block, t - 1), ConstantPair(CONSTANTS[t - 1]), HalfSchedule(block, t - 1))
  }

  function AddRegs(s: Regs<Pair>, r: Regs<Pair>): Regs<Pair> {
    Regs(AddSecond(s.a, r.a), AddSecond(s.b, r.b), AddSecond(s.c, r.c), AddSecond(s.d, r.d),
         AddSecond(s.e, r.e), AddSecond(s.f, r.f), AddSecond(s.g, r.g), AddSecond(s.h, r.h))
  }

  function HalfCompress(r: Regs<Pair>, block: Block): Regs<Pair> {
    AddRegs(r, HalfRounds(r, block, 80))
  }

  /** The half-word schedule is the 64-bit schedule. */
  lemma {:induction false} HalfScheduleJoined(block: Block, t: nat)
    ensures HalfSchedule(block, t).Joined() == Schedule(block, t)
    decreases t
  {
    if t < 16 {
      ReadPair(block, t);
    } else {
      HalfScheduleJoined(block, t - 15);
      HalfScheduleJoined(block, t - 2);
      HalfScheduleJoined(block, t - 7);
      HalfScheduleJoined(block, t - 16);
      NextPairRefines(HalfSchedule(block, t - 15), HalfSchedule(block, t - 2), HalfSchedule(block, t - 7),
                      HalfSchedule(block, t - 16));
    }
  }

  lemma {:induction false} HalfRoundJoined(r: Regs<Pair>, block: Block, t: nat)
    requires t < 80
    ensures |CONSTANTS| == 80
    ensures JoinedRegs(HalfRound(r, ConstantPair(CONSTANTS[t]), HalfSchedule(block, t)))
         == Round(JoinedRegs(r), RoundConstant(t), Schedule(block, t))
  {
    ConstantCounts();
    HalfScheduleJoined(block, t);
    RoundRefines(r, ConstantPair(CONSTANTS[t]), HalfSchedule(block, t));
  }

  lemma {:induction false} HalfRoundsJoined(r: Regs<Pair>, block: Block, t: nat)
    requires t <= 80
    ensures JoinedRegs(HalfRounds(r, block, t)) == Rounds(JoinedRegs(r), block, t)
    decreases t
  {
    ConstantCounts();
    if t > 0 {
      HalfRoundsJoined(r, block, t - 1);
      HalfRoundJoined(HalfRounds(r, block, t - 1), block, t - 1);
    }
  }

  /** Compression on halves is the 64-bit compression of section 6.4.2 of FIPS 180-4. */
  lemma {:induction false} HalfCompressJoined(s: Regs<Pair>, block: Block)
    ensures JoinedRegs(HalfCompress(s, block)) == Compress(JoinedRegs(s), block)
  {
    var r := HalfRounds(s, block, 80);
    HalfRoundsJoined(s, block, 80);
    AddJoined(s.a, r.a);
    AddJoined(s.b, r.b);
    AddJoined(s.c, r.c);
    AddJoined(s.d, r.d);
    AddJoined(s.e, r.e);
    AddJoined(s.f, r.f);
    AddJoined(s.g, r.g);
    AddJoined(s.h, r.h);
  }

  /** The schedule array after its first `n` pairs are filled in. */
  ghost predicate Scheduled(w: seq<Half>, block: Block, n: nat)
    requires |w| == 160 && n <= 80
  {
    forall t :: 0 <= t < n ==> PairAt(w, t) == HalfSchedule(block, t)
  }

  lemma {:induction false} ScheduledExtends(w: seq<Half>, block: Block, t: nat, p: Pair)
    requires |w| == 160 && t < 80 && Scheduled(w, block, t) && p == HalfSchedule(block, t)
    ensures Scheduled(w[2 * t := p.hi][2 * t + 1 := p.lo], block, t + 1)
  {
    var v := w[2 * t := p.hi][2 * t + 1 := p.lo];
    forall i | 0 <= i < t + 1
      ensures PairAt(v, i) == HalfSchedule(block, i)
    {
      PairStored(w, t, p, i);
    }
  }

  lemma {:induction false} PairStored(w: seq<Half>, t: nat, p: Pair, i: nat)
    requires |w| == 160 && i <= t < 80
    ensures PairAt(w[2 * t := p.hi][2 * t + 1 := p.lo], i) == if i == t then p else PairAt(w, i)
  {
  }

  /** Stores a schedule pair in its two places. */
  method StorePair(w: array<Half>, ghost block: Block, t: nat, p: Pair)
    requires w.Length == 160 && t < 80 && Scheduled(w[..], block, t) && p == HalfSchedule(block, t)
    modifies w
    ensures Scheduled(w[..], block, t + 1)
  {
    ScheduledExtends(w[..], block, t, p);
    w[2 * t], w[2 * t + 1] := p.hi, p.lo;
    assert w[..] == old(w[..])[2 * t := p.hi][2 * t + 1 := p.lo];
  }

  method LoadBlock(block: Block, w: array<Half>)
    requires w.Length == 160
    modifies w
    ensures Scheduled(w[..], block, 16)
  {
    for t := 0 to 16
      invariant Scheduled(w[..], block, t)
    {
      StorePair(w, block, t, Pair(ReadHalf(block, 8 * t), ReadHalf(block, 8 * t + 4)));
    }
  }

  lemma {:induction false} NextScheduled(w: seq<Half>, block: Block, t: nat)
    requires |w| == 160 && 16 <= t < 80 && Scheduled(w, block, t)
    ensures NextPair(PairAt(w, t - 15), PairAt(w, t - 2), PairAt(w, t - 7), PairAt(w, t - 16))
         == HalfSchedule(block, t)
  {
  }

  /** The four earlier pairs, read from their interleaved places. */
  method PairsBack(w: array<Half>, t: nat) returns (w15: Pair, w2: Pair, w7: Pair, w16: Pair)
    requires w.Length == 160 && 16 <= t < 80
    ensures w15 == PairAt(w[..], t - 15) && w2 == PairAt(w[..], t - 2)
    ensures w7 == PairAt(w[..], t - 7) && w16 == PairAt(w[..], t - 16)
  {
    w15, w2 := Pair(w[2 * t - 30], w[2 * t - 29]), Pair(w[2 * t - 4], w[2 * t - 3]);
    w7, w16 := Pair(w[2 * t - 14], w[2 * t - 13]), Pair(w[2 * t - 32], w[2 * t - 31]);
  }

  method ExpandSchedule(ghost block: Block, w: array<Half>)
    requires w.Length == 160 && Scheduled(w[..], block, 16)
    modifies w
    ensures Scheduled(w[..], block, 80)
  {
    for t := 16 to 80
      invariant Scheduled(w[..], block, t)
    {
      var w15, w2, w7, w16 := PairsBack(w, t);
      NextScheduled(w[..], block, t);
      StorePair(w, block, t, NextPair(w15, w2, w7, w16));
    }
  }

  method RunRounds(start: Regs<Pair>, ghost block: Block, w: array<Half>) returns (r: Regs<Pair>)
    requires w.Length == 160 && Scheduled(w[..], block, 80)
    ensures r == HalfRounds(start, block, 80)
  {
    ConstantCounts();
    r := start;
    for t := 0 to 80
      invariant r == HalfRounds(start, block, t)
    {
      var k, p := ConstantPair(CONSTANTS[t]), Pair(w[2 * t], w[2 * t + 1]);
      assert p == PairAt(w[..], t);
      r := HalfRound(r, k, p);
    }
  }

  /** `_update`: the chaining value moves on by one block of FIPS 180-4. */
  method Update(chain: Regs<Pair>, block: Block, w: array<Half>) returns (next: Regs<Pair>)
    requires w.Length == 160
    modifies w
    ensures next == HalfCompress(chain, block) && JoinedRegs(next) == Compress(JoinedRegs(chain), block)
  {
    LoadBlock(block, w);
    ExpandSchedule(block, w);
    var r := RunRounds(chain, block, w);
    next := AddRegs(chain, r);
    HalfCompressJoined(chain, block);
  }
}
