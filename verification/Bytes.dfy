/** Bytes and big-endian numbers. */
module Bytes {
  type Byte = b: int | 0 <= b < 0x100

  /** The number that the bytes `s` spell, most significant byte first. */
  function BigEndian(s: seq<Byte>): nat {
    if |s| == 0 then 0 else BigEndian(s[..|s| - 1]) * 0x100 + s[|s| - 1]
  }

  /** The low `n` bytes of `v`, most significant byte first. */
  function ToBigEndian(v: nat, n: nat): (s: seq<Byte>)
    ensures |s| == n
    decreases n, v
  {
    if n == 0 then [] else ToBigEndian(v / 0x100, n - 1) + [v % 0x100]
  }

  lemma {:induction false} BigEndianFour(s: seq<Byte>)
    requires |s| == 4
    ensures BigEndian(s) < 0x1_0000_0000
  {
    assert s[..3][..2] == s[..2] && s[..2][..1] == s[..1] && s[..1][..0] == [];
    assert BigEndian(s[..1]) < 0x100;
    assert BigEndian(s[..2]) < 0x1_0000;
    assert BigEndian(s[..3]) < 0x100_0000;
  }

  /** Eight bytes are two groups of four. */
  lemma {:induction false} BigEndianEight(s: seq<Byte>)
    requires |s| == 8
    ensures BigEndian(s) == BigEndian(s[..4]) * 0x1_0000_0000 + BigEndian(s[4..])
  {
    var h, l := s[..4], s[4..];
    assert s[..7][..6] == s[..6] && s[..6][..5] == s[..5] && s[..5][..4] == h;
    assert l[..3][..2] == l[..2] && l[..2][..1] == l[..1] && l[..1][..0] == [];
    assert BigEndian(s[..5]) == BigEndian(h) * 0x100 + BigEndian(l[..1]);
    assert BigEndian(s[..6]) == BigEndian(h) * 0x1_0000 + BigEndian(l[..2]);
    assert BigEndian(s[..7]) == BigEndian(h) * 0x100_0000 + BigEndian(l[..3]);
  }

  /** Splitting off the last four bytes splits off the low 32 bits. */
  lemma {:induction false} ToBigEndianSplit(v: nat, m: nat)
    ensures ToBigEndian(v, m + 4) == ToBigEndian(v / 0x1_0000_0000, m) + ToBigEndian(v % 0x1_0000_0000, 4)
  {
    FourBytes(v, m);
    FourBytes(v % 0x1_0000_0000, 0);
    LowDigits(v);
  }

  lemma {:induction false} LowDigits(v: nat)
    ensures var w := v % 0x1_0000_0000;
            && w % 0x100 == v % 0x100 && w / 0x100 % 0x100 == v / 0x100 % 0x100
            && w / 0x1_0000 % 0x100 == v / 0x1_0000 % 0x100 && w / 0x100_0000 % 0x100 == v / 0x100_0000 % 0x100
            && w / 0x1_0000_0000 == 0
  {
    var q, w := v / 0x1_0000_0000, v % 0x1_0000_0000;
    Shifts(v);
    Shifts(w);
    DropDigit(q * 0x100_0000, w);
    DropDigit(q * 0x1_0000, w / 0x100);
    DropDigit(q * 0x100, w / 0x1_0000);
    DropDigit(q, w / 0x100_0000);
  }

  lemma {:induction false} DropDigit(p: nat, w: nat)
    ensures (p * 0x100 + w) / 0x100 == p + w / 0x100 && (p * 0x100 + w) % 0x100 == w % 0x100
  {
  }

  lemma {:induction false} Shifts(v: nat)
    ensures v / 0x100 / 0x100 == v / 0x1_0000 && v / 0x1_0000 / 0x100 == v / 0x100_0000
  {
  }

  lemma {:induction false} FourBytes(v: nat, m: nat)
    ensures ToBigEndian(v, m + 4) == ToBigEndian(v / 0x1_0000_0000, m)
      + [v / 0x100_0000 % 0x100, v / 0x1_0000 % 0x100, v / 0x100 % 0x100, v % 0x100]
  {
    var v1, v2, v3 := v / 0x100, v / 0x1_0000, v / 0x100_0000;
    assert v1 / 0x100 == v2 && v2 / 0x100 == v3 && v3 / 0x100 == v / 0x1_0000_0000;
    assert ToBigEndian(v3, m + 1) == ToBigEndian(v / 0x1_0000_0000, m) + [v3 % 0x100];
    assert ToBigEndian(v2, m + 2) == ToBigEndian(v3, m + 1) + [v2 % 0x100];
    assert ToBigEndian(v1, m + 3) == ToBigEndian(v2, m + 2) + [v1 % 0x100];
    assert ToBigEndian(v, m + 4) == ToBigEndian(v1, m + 3) + [v % 0x100];
  }

  lemma {:induction false} ToBigEndianPair(v: nat, h: nat, l: nat)
    requires v == h * 0x1_0000_0000 + l && l < 0x1_0000_0000
    ensures ToBigEndian(v, 8) == ToBigEndian(h, 4) + ToBigEndian(l, 4)
  {
    assert v / 0x1_0000_0000 == h && v % 0x1_0000_0000 == l;
    ToBigEndianSplit(v, 4);
  }

  function Flatten(chunks: seq<seq<Byte>>): seq<Byte> {
    if |chunks| == 0 then [] else chunks[0] + Flatten(chunks[1..])
  }

  lemma {:induction false} FlattenConcat(a: seq<seq<Byte>>, b: seq<seq<Byte>>)
    ensures Flatten(a + b) == Flatten(a) + Flatten(b)
  {
    if |a| == 0 {
      assert a + b == b;
    } else {
      assert (a + b)[1..] == a[1..] + b;
      FlattenConcat(a[1..], b);
    }
  }

  lemma {:induction false} FlattenOne(chunk: seq<Byte>)
    ensures Flatten([chunk]) == chunk
  {
    assert [chunk][1..] == [];
  }
}
