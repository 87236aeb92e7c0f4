/**
 * Machine words as bit sequences, least significant bit first, with the shifts, bitwise operations and modular
 * sums that both 32-bit half words and 64-bit words use.
 */
module Words {
  import opened Division

  type Word = seq<bool>

  function Shr(x: Word, n: nat): (r: Word)
    ensures |r| == |x| && forall i :: 0 <= i < |x| ==> r[i] == (i + n < |x| && x[i + n])
  {
    seq(|x|, i requires 0 <= i => i + n < |x| && x[i + n])
  }

  function Shl(x: Word, n: nat): (r: Word)
    ensures |r| == |x| && forall i :: 0 <= i < |x| ==> r[i] == (i >= n && x[i - n])
  {
    seq(|x|, i requires 0 <= i < |x| => i >= n && x[i - n])
  }

  function Or(x: Word, y: Word): (r: Word)
    requires |x| == |y|
    ensures |r| == |x| && forall i :: 0 <= i < |x| ==> r[i] == (x[i] || y[i])
  {
    seq(|x|, i requires 0 <= i < |x| => x[i] || y[i])
  }

  function And(x: Word, y: Word): (r: Word)
    requires |x| == |y|
    ensures |r| == |x| && forall i :: 0 <= i < |x| ==> r[i] == (x[i] && y[i])
  {
    seq(|x|, i requires 0 <= i < |x| => x[i] && y[i])
  }

  function Xor(x: Word, y: Word): (r: Word)
    requires |x| == |y|
    ensures |r| == |x| && forall i :: 0 <= i < |x| ==> r[i] == (x[i] != y[i])
  {
    seq(|x|, i requires 0 <= i < |x| => x[i] != y[i])
  }

  function Not(x: Word): (r: Word)
    ensures |r| == |x| && forall i :: 0 <= i < |x| ==> r[i] == !x[i]
  {
    seq(|x|, i requires 0 <= i < |x| => !x[i])
  }

  function Rotr(x: Word, n: nat): (r: Word)
    requires n <= |x|
    ensures |r| == |x|
  {
    Or(Shr(x, n), Shl(x, |x| - n))
  }

  // ---------------------------------------------------------------------------------------------
  // Numbers
  // ---------------------------------------------------------------------------------------------

  function Pow2(n: nat): (p: nat)
    ensures p > 0
  {
    if n == 0 then 1 else 2 * Pow2(n - 1)
  }

  function Bit(b: bool): nat {
    if b then 1 else 0
  }

  function Val(x: Word): nat {
    if |x| == 0 then 0 else Bit(x[0]) + 2 * Val(x[1..])
  }

  /** The low `n` bits of `v`. */
  function ToBits(v: nat, n: nat): (x: Word)
    ensures |x| == n
    decreases n, v
  {
    if n == 0 then [] else [v % 2 == 1] + ToBits(v / 2, n - 1)
  }

  /** Addition modulo 2^|x|. */
  function Add(x: Word, y: Word): (r: Word)
    requires |x| == |y|
    ensures |r| == |x|
  {
    ToBits(Val(x) + Val(y), |x|)
  }

  lemma {:induction false} ValBound(x: Word)
    ensures Val(x) < Pow2(|x|)
  {
    if |x| > 0 {
      ValBound(x[1..]);
    }
  }

  lemma {:induction false} ToBitsVal(x: Word)
    ensures ToBits(Val(x), |x|) == x
  {
    if |x| > 0 {
      ToBitsVal(x[1..]);
    }
  }

  lemma {:induction false} ValToBits(v: nat, n: nat)
    ensures Val(ToBits(v, n)) == v % Pow2(n)
  {
    if n > 0 {
      ValToBits(v / 2, n - 1);
      HalfMod(v, Pow2(n - 1));
      assert ToBits(v, n)[1..] == ToBits(v / 2, n - 1);
    }
  }

  lemma {:induction false} HalfMod(v: nat, p: nat)
    requires p > 0
    ensures v % (2 * p) == v % 2 + 2 * (v / 2 % p)
  {
    var q, r := v / 2 / p, v / 2 % p;
    assert v == (2 * p) * q + (v % 2 + 2 * r);
    DivModUnique(v, 2 * p, q, v % 2 + 2 * r);
  }

  lemma {:induction false} MulTwice(p: int, v: int)
    ensures (2 * p) * v == 2 * (p * v)
  {
  }

  lemma {:induction false} ValConcat(x: Word, y: Word)
    ensures Val(x + y) == Val(x) + Pow2(|x|) * Val(y)
  {
    if |x| == 0 {
      assert x + y == y;
    } else {
      assert (x + y)[1..] == x[1..] + y;
      ValConcat(x[1..], y);
      MulTwice(Pow2(|x| - 1), Val(y));
    }
  }

  lemma {:induction false} Pow2Sum(m: nat, n: nat)
    ensures Pow2(m + n) == Pow2(m) * Pow2(n)
  {
    if m > 0 {
      Pow2Sum(m - 1, n);
    }
  }

  /** Words are determined by their values. */
  lemma {:induction false} ValInjective(x: Word, y: Word)
    requires |x| == |y| && Val(x) == Val(y)
    ensures x == y
  {
    ToBitsVal(x);
    ToBitsVal(y);
  }

  lemma {:induction false} ToBitsMod(v: nat, w: nat, n: nat)
    requires v % Pow2(n) == w % Pow2(n)
    ensures ToBits(v, n) == ToBits(w, n)
  {
    ValToBits(v, n);
    ValToBits(w, n);
    ValInjective(ToBits(v, n), ToBits(w, n));
  }

  lemma {:induction false} ModAdd(a: nat, b: nat, m: nat)
    requires m > 0
    ensures (a % m + b) % m == (a + b) % m
  {
    var r := (a % m + b) % m;
    var q := a / m + (a % m + b) / m;
    assert a + b == m * q + r;
    DivModUnique(a + b, m, q, r);
  }

  /** Sums may be reordered. */
  lemma {:induction false} AddReorder(a: Word, b: Word, c: Word, d: Word)
    requires |a| == |b| == |c| == |d|
    ensures Add(Add(Add(a, b), c), d) == Add(Add(Add(c, b), a), d)
  {
    var n := |a|;
    SumOfThree(a, b, c);
    SumOfThree(c, b, a);
  }

  lemma {:induction false} SumOfThree(a: Word, b: Word, c: Word)
    requires |a| == |b| == |c|
    ensures Add(Add(a, b), c) == ToBits(Val(a) + Val(b) + Val(c), |a|)
  {
    AddThird(Add(a, b), Val(a) + Val(b), c);
  }

  lemma {:induction false} AddThird(x: Word, s: nat, c: Word)
    requires x == ToBits(s, |c|)
    ensures Add(x, c) == ToBits(s + Val(c), |c|)
  {
    ValToBits(s, |c|);
    AddAfterWrap(s, Val(c), |c|);
  }

  lemma {:induction false} AddAfterWrap(s: nat, v: nat, n: nat)
    ensures ToBits(s % Pow2(n) + v, n) == ToBits(s + v, n)
  {
    ModAdd(s, v, Pow2(n));
    ToBitsMod(s % Pow2(n) + v, s + v, n);
  }
}
