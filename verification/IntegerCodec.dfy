/**
 * Signed integers of one to six bytes in a byte buffer. The writers divide with truncation toward zero and repair
 * the quotient of a negative number with a sticky borrow flag; the readers sum up the bytes and fold the upper half
 * of the range to the negative numbers.
 */
module IntegerCodec {
  import opened Bytes
  import opened Division

  function Pow256(k: nat): (p: nat)
    ensures p > 0
  {
    if k == 0 then 1 else 256 * Pow256(k - 1)
  }

  /** Byte `k` of the two's complement form of `v`, counted from the least significant. */
  function TwosByte(v: int, k: nat): Byte {
    v / Pow256(k) % 256
  }

  /** The integers that fit into `width` bytes. */
  predicate InRange(v: int, width: nat)
    requires width > 0
  {
    -128 * Pow256(width - 1) <= v < 128 * Pow256(width - 1)
  }

  // ---------------------------------------------------------------------------------------------
  // JavaScript arithmetic
  // ---------------------------------------------------------------------------------------------

  /** Division rounding toward zero. */
  function Trunc(v: int, p: nat): int
    requires p > 0
  {
    if v >= 0 then v / p else -(-v / p)
  }

  /** The conversion to a signed 32-bit integer that bit operators apply to their operands. */
  function ToInt32(v: int): int {
    var m := v % 0x1_0000_0000;
    if m >= 0x8000_0000 then m - 0x1_0000_0000 else m
  }

  /** `x & 255`. */
  function LowByte(x: int): Byte {
    x % 256
  }

  lemma {:induction false} LowByteOfInt32(v: int, borrow: int)
    ensures LowByte(ToInt32(v) - borrow) == LowByte(v - borrow)
  {
    var q := v / 0x1_0000_0000;
    assert v == q * 0x1_0000_0000 + v % 0x1_0000_0000;
  }

  // ---------------------------------------------------------------------------------------------
  // Division facts
  // ---------------------------------------------------------------------------------------------

  lemma {:induction false} Distribute(p: int, a: int, d: int, r: int)
    ensures p * (256 * a + d) + r == (256 * p) * a + (d * p + r)
  {
  }

  lemma {:induction false} DigitBelow(p: int, d: int, r: int)
    requires 0 <= d < 256 && 0 <= r < p
    ensures 0 <= d * p + r < 256 * p
  {
    assert d * p <= 255 * p;
  }

  /** Splitting off one more byte. */
  lemma {:induction false} NextDigit(v: int, p: nat)
    requires p > 0
    ensures v / (256 * p) == v / p / 256
    ensures v % (256 * p) == v / p % 256 * p + v % p
  {
    var q, r := v / p, v % p;
    Distribute(p, q / 256, q % 256, r);
    DigitBelow(p, q % 256, r);
    DivModUnique(v, 256 * p, q / 256, q % 256 * p + r);
  }

  /** Truncation misses the floor of a negative quotient by one unless the division is exact. */
  lemma {:induction false} TruncBorrow(v: int, p: nat)
    requires p > 0
    ensures v / p == Trunc(v, p) - if v < 0 && v % p != 0 then 1 else 0
  {
    if v < 0 {
      var q, r := -v / p, -v % p;
      assert -v == p * q + r;
      if r == 0 {
        assert v == p * (-q) + 0;
        DivModUnique(v, p, -q, 0);
      } else {
        assert p * (-q - 1) == p * (-q) - p;
        assert v == p * (-q - 1) + (p - r);
        DivModUnique(v, p, -q - 1, p - r);
      }
    }
  }

  /** The borrow flag due when byte `k` is written. */
  function Borrow(v: int, k: nat): int {
    if v < 0 && v % Pow256(k) != 0 then 1 else 0
  }

  /** The flag is set by the first nonzero byte and stays. */
  lemma {:induction false} BorrowSticks(v: int, k: nat)
    ensures Borrow(v, k + 1) == if v < 0 && (Borrow(v, k) == 1 || TwosByte(v, k) != 0) then 1 else 0
    ensures Borrow(v, 0) == 0
  {
    NextDigit(v, Pow256(k));
    var d := v / Pow256(k) % 256;
    if d > 0 {
      MulSign(Pow256(k), d);
    }
    assert v % 1 == 0;
  }

  /** What the writers store for byte `k`. */
  function StoredByte(v: int, k: nat): Byte {
    LowByte(ToInt32(Trunc(v, Pow256(k))) - Borrow(v, k))
  }

  lemma {:induction false} StoresTwosComplement(v: int, k: nat)
    ensures StoredByte(v, k) == TwosByte(v, k)
  {
    TruncBorrow(v, Pow256(k));
    LowByteOfInt32(Trunc(v, Pow256(k)), Borrow(v, k));
  }

  // ---------------------------------------------------------------------------------------------
  // Reading back
  // ---------------------------------------------------------------------------------------------

  /** The unsigned number of the bytes `s`, least significant byte first. */
  function Unsigned(s: seq<Byte>): nat {
    if |s| == 0 then 0 else Unsigned(s[..|s| - 1]) + s[|s| - 1] * Pow256(|s| - 1)
  }

  lemma {:induction false} UnsignedNext(s: seq<Byte>, k: nat)
    requires k < |s|
    ensures Unsigned(s[..k + 1]) == Unsigned(s[..k]) + s[k] * Pow256(k)
    ensures Unsigned(s[..0]) == 0
  {
    assert s[..k + 1][..k] == s[..k];
  }

  /** The two's complement form of `v` in `width` bytes, least significant byte first. */
  function TwosBytes(v: int, width: nat): (s: seq<Byte>)
    ensures |s| == width && forall k :: 0 <= k < width ==> s[k] == TwosByte(v, k)
  {
    seq(width, k requires 0 <= k => TwosByte(v, k))
  }

  /** Read as an unsigned number, the two's complement form is `v` modulo 256^width. */
  lemma {:induction false} UnsignedTwosBytes(v: int, width: nat)
    ensures Unsigned(TwosBytes(v, width)) == v % Pow256(width)
  {
    if width == 0 {
      assert v % 1 == 0;
    } else {
      UnsignedTwosBytes(v, width - 1);
      NextDigit(v, Pow256(width - 1));
      assert TwosBytes(v, width)[..width - 1] == TwosBytes(v, width - 1);
    }
  }

  /** Folding the upper half of the unsigned range to the negative numbers. */
  function Fold(n: int, width: nat): int
    requires width > 0
  {
    if n >= 128 * Pow256(width - 1) then n - Pow256(width) else n
  }

  /** The two's complement round trip: exactly the integers in range come back. */
  lemma {:induction false} RoundTripIff(v: int, width: nat)
    requires width > 0
    ensures Fold(Unsigned(TwosBytes(v, width)), width) == v <==> InRange(v, width)
  {
    UnsignedTwosBytes(v, width);
    var p := Pow256(width);
    if 0 <= v < p {
      DivModUnique(v, p, 0, v);
    } else if -p <= v < 0 {
      DivModUnique(v, p, -1, v + p);
    }
  }

  function Reverse(s: seq<Byte>): (r: seq<Byte>)
    ensures |r| == |s| && forall i :: 0 <= i < |s| ==> r[i] == s[|s| - 1 - i]
  {
    seq(|s|, i requires 0 <= i < |s| => s[|s| - 1 - i])
  }

  // ---------------------------------------------------------------------------------------------
  // The buffer methods
  // ---------------------------------------------------------------------------------------------

  datatype Outcome<T> = Done(value: T) | RangeError

  /** The bounds check of the writers. */
  predicate Writable(length: nat, v: int, offset: nat, width: nat)
    requires width > 0
  {
    InRange(v, width) && offset + width <= length
  }

  /** One turn of the writing loops: the next byte from the value, the place value, and the byte written last. */
  method NextByte(v: int, mul: nat, borrow: int, last: Byte, ghost k: nat) returns (mul': nat, borrow': int, b: Byte)
    requires k < 5 && mul == Pow256(k) && borrow == Borrow(v, k) && last == TwosByte(v, k)
    ensures mul' == Pow256(k + 1) && borrow' == Borrow(v, k + 1) && b == TwosByte(v, k + 1)
  {
    mul', borrow' := mul * 256, borrow;
    BorrowSticks(v, k);
    if v < 0 && borrow == 0 && last != 0 {
      borrow' := 1;
    }
    StoresTwosComplement(v, k + 1);
    b := LowByte(ToInt32(Trunc(v, mul')) - borrow');
  }

  /** `writeIntLE`. */
  method WriteIntLE(buf: array<Byte>, v: int, offset: nat, width: nat) returns (r: Outcome<nat>)
    requires 1 <= width <= 6
    modifies buf
    ensures r == if InRange(v, width) && offset + width <= buf.Length then Done(offset + width) else RangeError
    ensures r.Done? ==> buf[offset..offset + width] == TwosBytes(v, width)
    ensures forall i :: 0 <= i < buf.Length && (r.Done? ==> i < offset || offset + width <= i) ==> buf[i] == old(buf[i])
  {
    if !Writable(buf.Length, v, offset, width) {
      return RangeError;
    }
    var k, mul, borrow := 1, 1, 0;
    StoresTwosComplement(v, 0);
    BorrowSticks(v, 0);
    buf[offset] := LowByte(ToInt32(v));
    while k < width
      invariant 1 <= k <= width && mul == Pow256(k - 1) && borrow == Borrow(v, k - 1)
      invariant forall i :: 0 <= i < k ==> buf[offset + i] == TwosByte(v, i)
      invariant forall i :: 0 <= i < buf.Length && (i < offset || offset + k <= i) ==> buf[i] == old(buf[i])
    {
      var byte;
      mul, borrow, byte := NextByte(v, mul, borrow, buf[offset + k - 1], k - 1);
      buf[offset + k] := byte;
      k := k + 1;
    }
    assert buf[offset..offset + width] == TwosBytes(v, width);
    return Done(offset + width);
  }

  lemma {:induction false} ReversedBytes(s: seq<Byte>, v: int, width: nat)
    requires |s| == width && forall k :: 0 <= k < width ==> s[width - 1 - k] == TwosByte(v, k)
    ensures s == Reverse(TwosBytes(v, width))
  {
    forall i | 0 <= i < width
      ensures s[i] == Reverse(TwosBytes(v, width))[i]
    {
      assert s[width - 1 - (width - 1 - i)] == TwosByte(v, width - 1 - i);
    }
  }

  /** `writeIntBE`. */
  method WriteIntBE(buf: array<Byte>, v: int, offset: nat, width: nat) returns (r: Outcome<nat>)
    requires 1 <= width <= 6
    modifies buf
    ensures r == if InRange(v, width) && offset + width <= buf.Length then Done(offset + width) else RangeError
    ensures r.Done? ==> buf[offset..offset + width] == Reverse(TwosBytes(v, width))
    ensures forall i :: 0 <= i < buf.Length && (r.Done? ==> i < offset || offset + width <= i) ==> buf[i] == old(buf[i])
  {
    if !Writable(buf.Length, v, offset, width) {
      return RangeError;
    }
    var i, mul, borrow := width - 1, 1, 0;
    StoresTwosComplement(v, 0);
    BorrowSticks(v, 0);
    buf[offset + i] := LowByte(ToInt32(v));
    while i > 0
      invariant 0 <= i < width && mul == Pow256(width - 1 - i) && borrow == Borrow(v, width - 1 - i)
      invariant forall k :: 0 <= k < width - i ==> buf[offset + width - 1 - k] == TwosByte(v, k)
      invariant forall j :: 0 <= j < buf.Length && (j < offset + i || offset + width <= j) ==> buf[j] == old(buf[j])
    {
      var byte;
      mul, borrow, byte := NextByte(v, mul, borrow, buf[offset + i], width - 1 - i);
      i := i - 1;
      buf[offset + i] := byte;
    }
    ReversedBytes(buf[offset..offset + width], v, width);
    return Done(offset + width);
  }

  /** `readIntLE`. */
  method ReadIntLE(buf: array<Byte>, offset: nat, width: nat) returns (r: Outcome<int>)
    requires 1 <= width <= 6
    ensures r == if offset + width <= buf.Length then Done(Fold(Unsigned(buf[offset..offset + width]), width))
                 else RangeError
  {
    if offset + width > buf.Length {
      return RangeError;
    }
    ghost var digits := buf[offset..offset + width];
    var n: int, mul: nat, k := buf[offset], 1, 1;
    UnsignedNext(digits, 0);
    while k < width
      invariant 1 <= k <= width && mul == Pow256(k - 1) && n == Unsigned(digits[..k])
    {
      mul := mul * 256;
      UnsignedNext(digits, k);
      n := n + buf[offset + k] * mul;
      k := k + 1;
    }
    assert digits[..width] == digits;
    mul := mul * 128;
    if n >= mul {
      n := n - Pow256(width);
    }
    return Done(n);
  }

  /** `readIntBE`. */
  method ReadIntBE(buf: array<Byte>, offset: nat, width: nat) returns (r: Outcome<int>)
    requires 1 <= width <= 6
    ensures r == if offset + width <= buf.Length then Done(Fold(Unsigned(Reverse(buf[offset..offset + width])), width))
                 else RangeError
  {
    if offset + width > buf.Length {
      return RangeError;
    }
    ghost var digits := Reverse(buf[offset..offset + width]);
    var i, mul: nat := width - 1, 1;
    var n: int := buf[offset + i];
    UnsignedNext(digits, 0);
    while i > 0
      invariant 0 <= i < width && mul == Pow256(width - 1 - i) && n == Unsigned(digits[..width - i])
    {
      UnsignedNext(digits, width - i);
      i := i - 1;
      mul := mul * 256;
      n := n + buf[offset + i] * mul;
    }
    assert digits[..width] == digits;
    mul := mul * 128;
    if n >= mul {
      n := n - Pow256(width);
    }
    return Done(n);
  }

  /** Writing and reading back at the same place, in either byte order. */
  method WriteThenRead(buf: array<Byte>, v: int, offset: nat, width: nat, bigEndian: bool) returns (r: Outcome<int>)
    requires 1 <= width <= 6
    modifies buf
    ensures r == if Writable(buf.Length, v, offset, width) then Done(v) else RangeError
  {
    RoundTripIff(v, width);
    if bigEndian {
      var w := WriteIntBE(buf, v, offset, width);
      if w.RangeError? { return RangeError; }
      assert Reverse(Reverse(TwosBytes(v, width))) == TwosBytes(v, width);
      r := ReadIntBE(buf, offset, width);
    } else {
      var w := WriteIntLE(buf, v, offset, width);
      if w.RangeError? { return RangeError; }
      r := ReadIntLE(buf, offset, width);
    }
  }
}
