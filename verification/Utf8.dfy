/**
 * The byte buffer's UTF-8 codec: the decoder that turns bytes into UTF-16 code units, with one replacement
 * character for every byte it cannot place, and the encoder that carries a pending lead surrogate and an
 * optional byte budget. Bit operations on bytes and code points are written as arithmetic.
 */
module Utf8 {
  import opened Bytes
  import opened Seqs

  type Unit = u: int | 0 <= u < 0x10000

  const REPLACEMENT := 0xFFFD

  /** The code points that have an encoding: no surrogates, nothing above U+10FFFF. */
  predicate IsScalar(c: int) {
    0 <= c < 0x110000 && !(0xD800 <= c < 0xE000)
  }

  type Scalar = c: int | 0 <= c < 0x110000 && !(0xD800 <= c < 0xE000)

  // ---------------------------------------------------------------------------------------------
  // Reference definitions: RFC 3629 and UTF-16
  // ---------------------------------------------------------------------------------------------

  predicate IsTail(b: Byte) {
    0x80 <= b <= 0xBF
  }

  /** The `UTF8-char` rule of section 4 of RFC 3629. */
  predicate IsChar(c: seq<Byte>) {
    || (|c| == 1 && c[0] <= 0x7F)
    || (|c| == 2 && 0xC2 <= c[0] <= 0xDF && IsTail(c[1]))
    || (|c| == 3 && IsTail(c[1]) && IsTail(c[2])
        && (|| (c[0] == 0xE0 && 0xA0 <= c[1])
            || 0xE1 <= c[0] <= 0xEC
            || (c[0] == 0xED && c[1] <= 0x9F)
            || 0xEE <= c[0] <= 0xEF))
    || (|c| == 4 && IsTail(c[1]) && IsTail(c[2]) && IsTail(c[3])
        && (|| (c[0] == 0xF0 && 0x90 <= c[1])
            || 0xF1 <= c[0] <= 0xF3
            || (c[0] == 0xF4 && c[1] <= 0x8F)))
  }

  /** Zero or more UTF-8 characters. */
  predicate WellFormed(b: seq<Byte>) {
    |b| == 0 || exists n :: 1 <= n <= 4 && n <= |b| && IsChar(b[..n]) && WellFormed(b[n..])
  }

  predicate IsLead(u: int) {
    0xD800 <= u < 0xDC00
  }

  predicate IsTrail(u: int) {
    0xDC00 <= u < 0xE000
  }

  /** Every surrogate is half of a pair. */
  predicate PairedUnits(s: seq<Unit>) {
    if |s| == 0 then true
    else if IsLead(s[0]) then |s| > 1 && IsTrail(s[1]) && PairedUnits(s[2..])
    else !IsTrail(s[0]) && PairedUnits(s[1..])
  }

  function Combine(lead: int, trail: int): (c: int)
    requires IsLead(lead) && IsTrail(trail)
    ensures 0x10000 <= c < 0x110000
  {
    0x10000 + (lead - 0xD800) * 0x400 + (trail - 0xDC00)
  }

  /** The code points of a UTF-16 string, with the replacement character for each unpaired surrogate. */
  function Scalars(s: seq<Unit>): seq<Scalar> {
    if |s| == 0 then []
    else if IsLead(s[0]) && |s| > 1 && IsTrail(s[1]) then [Combine(s[0], s[1])] + Scalars(s[2..])
    else if IsLead(s[0]) || IsTrail(s[0]) then [REPLACEMENT] + Scalars(s[1..])
    else [s[0]] + Scalars(s[1..])
  }

  // ---------------------------------------------------------------------------------------------
  // One character
  // ---------------------------------------------------------------------------------------------

  function EncodeScalar(c: Scalar): (r: seq<Byte>)
    ensures 1 <= |r| <= 4
  {
    if c < 0x80 then [c]
    else if c < 0x800 then [c / 0x40 + 0xC0, c % 0x40 + 0x80]
    else if c < 0x10000 then [c / 0x1000 + 0xE0, c / 0x40 % 0x40 + 0x80, c % 0x40 + 0x80]
    else [c / 0x40000 + 0xF0, c / 0x1000 % 0x40 + 0x80, c / 0x40 % 0x40 + 0x80, c % 0x40 + 0x80]
  }

  function LeadLength(b: Byte): nat {
    if b > 239 then 4 else if b > 223 then 3 else if b > 191 then 2 else 1
  }

  // Code points put together from six-bit groups, high group first.

  function Join2(y: int, x: int): int {
    y * 0x40 + x
  }

  function Join3(z: int, y: int, x: int): int {
    z * 0x1000 + y * 0x40 + x
  }

  function Join4(u: int, z: int, y: int, x: int): int {
    u * 0x40000 + z * 0x1000 + y * 0x40 + x
  }

  // The decoder masks the payload bits out of each byte; under the tests made on the bytes, this is subtraction.

  function Try2(a: Byte, b: Byte): (c: int)
    requires LeadLength(a) == 2
  {
    var c := Join2(a - 0xC0, b - 0x80);
    if IsTail(b) && c > 127 then c else -1
  }

  function Try3(a: Byte, b: Byte, d: Byte): (c: int)
    requires LeadLength(a) == 3
  {
    var c := Join3(a - 0xE0, b - 0x80, d - 0x80);
    if IsTail(b) && IsTail(d) && c > 2047 && (c < 55296 || c > 57343) then c else -1
  }

  function Try4(a: Byte, b: Byte, d: Byte, e: Byte): (c: int)
    requires LeadLength(a) == 4
  {
    var c := Join4(a - 0xF0, b - 0x80, d - 0x80, e - 0x80);
    if IsTail(b) && IsTail(d) && IsTail(e) && c > 65535 && c < 1114112 then c else -1
  }

  /** The code point of the character at the front of `b`, or -1 when the decoder rejects it. */
  function TryDecode(b: seq<Byte>): (c: int)
    requires b != []
    ensures c == -1 || IsScalar(c)
  {
    var n := LeadLength(b[0]);
    if |b| < n then -1
    else if n == 1 then
      if b[0] < 128 then b[0] else -1
    else if n == 2 then Try2(b[0], b[1])
    else if n == 3 then Try3(b[0], b[1], b[2])
    else Try4(b[0], b[1], b[2], b[3])
  }

  lemma {:induction false} Accepts2(a: Byte, b: Byte)
    requires LeadLength(a) == 2
    ensures Try2(a, b) != -1 <==> IsChar([a, b])
  {
  }

  lemma {:induction false} Accepts3(a: Byte, b: Byte, d: Byte)
    requires LeadLength(a) == 3
    ensures Try3(a, b, d) != -1 <==> IsChar([a, b, d])
  {
  }

  lemma {:induction false} Accepts4(a: Byte, b: Byte, d: Byte, e: Byte)
    requires LeadLength(a) == 4
    ensures Try4(a, b, d, e) != -1 <==> IsChar([a, b, d, e])
  {
  }

  /** The decoder accepts a character exactly when RFC 3629 does, and its length is told by the first byte. */
  lemma {:induction false} AcceptsExactlyChars(b: seq<Byte>)
    requires b != []
    ensures TryDecode(b) != -1 <==> LeadLength(b[0]) <= |b| && IsChar(b[..LeadLength(b[0])])
  {
    var n := LeadLength(b[0]);
    if n <= |b| {
      if n == 2 {
        assert b[..n] == [b[0], b[1]];
        Accepts2(b[0], b[1]);
      } else if n == 3 {
        assert b[..n] == [b[0], b[1], b[2]];
        Accepts3(b[0], b[1], b[2]);
      } else if n == 4 {
        assert b[..n] == [b[0], b[1], b[2], b[3]];
        Accepts4(b[0], b[1], b[2], b[3]);
      }
    }
  }

  lemma {:induction false} CharLength(b: seq<Byte>, n: nat)
    requires 1 <= n <= |b| && IsChar(b[..n])
    ensures n == LeadLength(b[0])
  {
    assert b[..n][0] == b[0];
  }

  // Six-bit groups and division.

  lemma {:induction false} LastGroup(p: int, x: int)
    requires 0 <= x < 0x40
    ensures (p * 0x40 + x) / 0x40 == p && (p * 0x40 + x) % 0x40 == x
  {
  }

  lemma {:induction false} Groups(c: int)
    requires 0 <= c
    ensures c / 0x1000 == c / 0x40 / 0x40 && c / 0x40000 == c / 0x1000 / 0x40
  {
  }

  lemma {:induction false} JoinSplit(c: int)
    requires 0 <= c
    ensures Join2(c / 0x40, c % 0x40) == c
    ensures Join3(c / 0x1000, c / 0x40 % 0x40, c % 0x40) == c
    ensures Join4(c / 0x40000, c / 0x1000 % 0x40, c / 0x40 % 0x40, c % 0x40) == c
  {
    Groups(c);
  }

  lemma {:induction false} SplitJoin2(y: int, x: int)
    requires 0 <= y && 0 <= x < 0x40
    ensures var c := Join2(y, x); c / 0x40 == y && c % 0x40 == x
  {
    LastGroup(y, x);
  }

  lemma {:induction false} SplitJoin3(z: int, y: int, x: int)
    requires 0 <= z && 0 <= y < 0x40 && 0 <= x < 0x40
    ensures var c := Join3(z, y, x); c / 0x1000 == z && c / 0x40 % 0x40 == y && c % 0x40 == x
  {
    LastGroup(z * 0x40 + y, x);
    LastGroup(z, y);
    Groups(Join3(z, y, x));
  }

  lemma {:induction false} SplitJoin4(u: int, z: int, y: int, x: int)
    requires 0 <= u && 0 <= z < 0x40 && 0 <= y < 0x40 && 0 <= x < 0x40
    ensures var c := Join4(u, z, y, x);
            c / 0x40000 == u && c / 0x1000 % 0x40 == z && c / 0x40 % 0x40 == y && c % 0x40 == x
  {
    LastGroup((u * 0x40 + z) * 0x40 + y, x);
    LastGroup(u * 0x40 + z, y);
    LastGroup(u, z);
    Groups(Join4(u, z, y, x));
  }

  lemma {:induction false} EncodedIsChar(c: Scalar)
    ensures IsChar(EncodeScalar(c))
    ensures LeadLength(EncodeScalar(c)[0]) == |EncodeScalar(c)|
  {
    var e := EncodeScalar(c);
    if 0x800 <= c < 0x10000 {
      assert c / 0x40 == c / 0x1000 * 0x40 + c / 0x40 % 0x40;
    } else if 0x10000 <= c {
      assert c / 0x1000 == c / 0x40000 * 0x40 + c / 0x1000 % 0x40;
    }
  }

  lemma {:induction false} Try3Encoded(c: Scalar)
    requires 0x800 <= c < 0x10000
    ensures var e := EncodeScalar(c); LeadLength(e[0]) == 3 && Try3(e[0], e[1], e[2]) == c
  {
    JoinSplit(c);
  }

  lemma {:induction false} Try4Encoded(c: Scalar)
    requires 0x10000 <= c
    ensures var e := EncodeScalar(c); LeadLength(e[0]) == 4 && Try4(e[0], e[1], e[2], e[3]) == c
  {
    JoinSplit(c);
  }

  /** Decoding an encoded code point gives it back, whatever follows. */
  lemma {:induction false} DecodeEncoded(c: Scalar, rest: seq<Byte>)
    ensures TryDecode(EncodeScalar(c) + rest) == c
  {
    var e := EncodeScalar(c);
    var b := e + rest;
    assert forall i :: 0 <= i < |e| ==> b[i] == e[i];
    EncodedIsChar(c);
    if 0x80 <= c < 0x800 {
      JoinSplit(c);
    } else if 0x800 <= c < 0x10000 {
      Try3Encoded(c);
    } else if 0x10000 <= c {
      Try4Encoded(c);
    }
  }

  lemma {:induction false} Encode2(a: Byte, b: Byte)
    requires LeadLength(a) == 2 && Try2(a, b) != -1
    ensures EncodeScalar(Try2(a, b)) == [a, b]
  {
    SplitJoin2(a - 0xC0, b - 0x80);
  }

  lemma {:induction false} Encode3(a: Byte, b: Byte, d: Byte)
    requires LeadLength(a) == 3 && Try3(a, b, d) != -1
    ensures EncodeScalar(Try3(a, b, d)) == [a, b, d]
  {
    SplitJoin3(a - 0xE0, b - 0x80, d - 0x80);
  }

  lemma {:induction false} Encode4(a: Byte, b: Byte, d: Byte, e: Byte)
    requires LeadLength(a) == 4 && Try4(a, b, d, e) != -1
    ensures EncodeScalar(Try4(a, b, d, e)) == [a, b, d, e]
  {
    SplitJoin4(a - 0xF0, b - 0x80, d - 0x80, e - 0x80);
  }

  /** Encoding a decoded character gives its bytes back. */
  lemma {:induction false} EncodeDecoded(b: seq<Byte>)
    requires b != [] && TryDecode(b) != -1
    ensures EncodeScalar(TryDecode(b)) == b[..LeadLength(b[0])]
  {
    var n := LeadLength(b[0]);
    if n == 2 {
      Encode2(b[0], b[1]);
    } else if n == 3 {
      Encode3(b[0], b[1], b[2]);
    } else if n == 4 {
      Encode4(b[0], b[1], b[2], b[3]);
    }
  }

  // ---------------------------------------------------------------------------------------------
  // Whole strings
  // ---------------------------------------------------------------------------------------------

  function Utf8Bytes(cs: seq<Scalar>): seq<Byte> {
    if |cs| == 0 then [] else EncodeScalar(cs[0]) + Utf8Bytes(cs[1..])
  }

  /** One code unit, or a surrogate pair. */
  function UnitsOf(c: Scalar): (u: seq<Unit>)
    ensures u != []
  {
    if c > 65535 then [(c - 65536) / 1024 + 55296, 56320 + (c - 65536) % 1024] else [c]
  }

  function Units(cs: seq<Scalar>): seq<Unit> {
    if |cs| == 0 then [] else UnitsOf(cs[0]) + Units(cs[1..])
  }

  /** What the decoder takes at the front of `b`: a character, or one byte it cannot place. */
  function TakeLength(b: seq<Byte>): (n: nat)
    requires b != []
    ensures 1 <= n <= |b| && n <= 4
  {
    if TryDecode(b) == -1 then 1 else LeadLength(b[0])
  }

  function TakeScalar(b: seq<Byte>): Scalar
    requires b != []
  {
    if TryDecode(b) == -1 then REPLACEMENT else TryDecode(b)
  }

  /** The code points the decoder finds in `b`. */
  function Decoded(b: seq<Byte>): seq<Scalar> {
    if |b| == 0 then [] else [TakeScalar(b)] + Decoded(b[TakeLength(b)..])
  }

  /** The string for the bytes `b`. */
  function Decode(b: seq<Byte>): seq<Unit> {
    Units(Decoded(b))
  }

  lemma {:induction false} UnitsConcat(a: seq<Scalar>, b: seq<Scalar>)
    ensures Units(a + b) == Units(a) + Units(b)
  {
    if |a| == 0 {
      assert a + b == b;
    } else {
      assert (a + b)[1..] == a[1..] + b;
      UnitsConcat(a[1..], b);
    }
  }

  lemma {:induction false} DecodeFront(b: seq<Byte>)
    requires b != []
    ensures Decode(b) == UnitsOf(TakeScalar(b)) + Decode(b[TakeLength(b)..])
  {
    assert Decoded(b)[1..] == Decoded(b[TakeLength(b)..]);
  }

  /** One turn of the decoding loop: the code point at `at`, and how many bytes to go on. */
  method DecodeOne(buf: seq<Byte>, at: nat, stop: nat) returns (c: Scalar, n: nat)
    requires at < stop <= |buf|
    ensures 0 < n <= stop - at && Decode(buf[at..stop]) == UnitsOf(c) + Decode(buf[at + n..stop])
  {
    DecodeFront(buf[at..stop]);
    var tried := TryDecode(buf[at..stop]);
    if tried == -1 {
      c, n := REPLACEMENT, 1;
    } else {
      c, n := tried, LeadLength(buf[at]);
    }
    SliceBehind(buf, at, stop, n);
  }

  /** The decoding loop, from `start` up to `end` or the end of the buffer. */
  method DecodeSlice(buf: seq<Byte>, start: nat, end: nat) returns (out: seq<Unit>)
    ensures var stop := if end < |buf| then end else |buf|;
            out == if start <= stop then Decode(buf[start..stop]) else []
  {
    var stop := if end < |buf| then end else |buf|;
    out := [];
    if start > stop {
      return;
    }
    var at := start;
    while at < stop
      invariant start <= at <= stop
      invariant out + Decode(buf[at..stop]) == Decode(buf[start..stop])
    {
      var c, n := DecodeOne(buf, at, stop);
      Assoc(out, UnitsOf(c), Decode(buf[at + n..stop]));
      out := out + UnitsOf(c);
      at := at + n;
    }
  }

  // ---------------------------------------------------------------------------------------------
  // Well-formed bytes
  // ---------------------------------------------------------------------------------------------

  /** A nonempty byte string is well-formed exactly when the decoder accepts its first character and the rest is. */
  lemma {:induction false} WellFormedFront(b: seq<Byte>)
    requires b != []
    ensures WellFormed(b) <==> TryDecode(b) != -1 && WellFormed(b[TakeLength(b)..])
  {
    AcceptsExactlyChars(b);
    if WellFormed(b) {
      var n :| 1 <= n <= 4 && n <= |b| && IsChar(b[..n]) && WellFormed(b[n..]);
      CharLength(b, n);
    }
  }

  /** Whatever is encoded comes out well-formed, and decodes to itself. */
  lemma {:induction false} BytesDecode(cs: seq<Scalar>)
    ensures WellFormed(Utf8Bytes(cs)) && Decoded(Utf8Bytes(cs)) == cs
  {
    if |cs| > 0 {
      BytesDecode(cs[1..]);
      var e, b := EncodeScalar(cs[0]), Utf8Bytes(cs);
      EncodedIsChar(cs[0]);
      DecodeEncoded(cs[0], Utf8Bytes(cs[1..]));
      assert b[0] == e[0];
      assert b[|e|..] == Utf8Bytes(cs[1..]);
      WellFormedFront(b);
    }
  }

  lemma {:induction false} BytesFront(b: seq<Byte>)
    requires b != [] && TryDecode(b) != -1 && Utf8Bytes(Decoded(b[TakeLength(b)..])) == b[TakeLength(b)..]
    ensures Utf8Bytes(Decoded(b)) == b
  {
    EncodeDecoded(b);
    Halves(b, TakeLength(b));
    BytesCons(TakeScalar(b), Decoded(b[TakeLength(b)..]));
  }

  lemma {:induction false} BytesCons(c: Scalar, cs: seq<Scalar>)
    ensures Utf8Bytes([c] + cs) == EncodeScalar(c) + Utf8Bytes(cs)
  {
    assert ([c] + cs)[1..] == cs;
  }

  lemma {:induction false} DecodedBytes(b: seq<Byte>)
    requires WellFormed(b)
    ensures Utf8Bytes(Decoded(b)) == b
    decreases |b|
  {
    if |b| > 0 {
      var n := TakeLength(b);
      WellFormedFront(b);
      DecodedBytes(b[n..]);
      BytesFront(b);
    }
  }

  // ---------------------------------------------------------------------------------------------
  // Paired code units
  // ---------------------------------------------------------------------------------------------

  lemma {:induction false} PairRoundTrip(c: Scalar)
    requires c > 65535
    ensures var u := UnitsOf(c); IsLead(u[0]) && IsTrail(u[1]) && Combine(u[0], u[1]) == c
  {
  }

  lemma {:induction false} UnitsScalars(cs: seq<Scalar>)
    ensures PairedUnits(Units(cs)) && Scalars(Units(cs)) == cs
  {
    if |cs| > 0 {
      UnitsScalars(cs[1..]);
      var u, s := UnitsOf(cs[0]), Units(cs);
      assert s[|u|..] == Units(cs[1..]);
      if cs[0] > 65535 {
        PairRoundTrip(cs[0]);
      }
    }
  }

  lemma {:induction false} CombineRoundTrip(lead: Unit, trail: Unit)
    requires IsLead(lead) && IsTrail(trail)
    ensures UnitsOf(Combine(lead, trail)) == [lead, trail]
  {
  }

  lemma {:induction false} ScalarsUnits(s: seq<Unit>)
    requires PairedUnits(s)
    ensures Units(Scalars(s)) == s
    decreases |s|
  {
    if |s| > 0 {
      if IsLead(s[0]) {
        CombineRoundTrip(s[0], s[1]);
        ScalarsUnits(s[2..]);
        assert s == [s[0], s[1]] + s[2..];
      } else {
        ScalarsUnits(s[1..]);
      }
    }
  }

  // ---------------------------------------------------------------------------------------------
  // The encoder
  // ---------------------------------------------------------------------------------------------

  /**
   * The code points the encoding loop still emits for the units `s` when `lead` (0 for none) is a lead
   * surrogate waiting for its other half. A lead still waiting at the end of the string is dropped.
   */
  function Emitted(s: seq<Unit>, lead: int): seq<Scalar>
    requires lead == 0 || IsLead(lead)
  {
    if |s| == 0 then []
    else
      var u: int := s[0];
      if IsTrail(u) && lead != 0 then [Combine(lead, u)] + Emitted(s[1..], 0)
      else if IsLead(u) && lead != 0 then [REPLACEMENT] + Emitted(s[1..], u)
      else if IsTrail(u) || (IsLead(u) && |s| == 1) then [REPLACEMENT] + Emitted(s[1..], 0)
      else if IsLead(u) then Emitted(s[1..], u)
      else (if lead != 0 then [REPLACEMENT, u] else [u]) + Emitted(s[1..], 0)
  }

  /** The unit at index `i` is next. */
  lemma {:induction false} EmittedAt(s: seq<Unit>, i: nat, lead: int)
    requires i < |s| && (lead == 0 || IsLead(lead))
    ensures var u: int, rest := s[i], s[i + 1..];
            Emitted(s[i..], lead) ==
            if IsTrail(u) && lead != 0 then [Combine(lead, u)] + Emitted(rest, 0)
            else if IsLead(u) && lead != 0 then [REPLACEMENT] + Emitted(rest, u)
            else if IsTrail(u) || (IsLead(u) && i + 1 == |s|) then [REPLACEMENT] + Emitted(rest, 0)
            else if IsLead(u) then Emitted(rest, u)
            else if lead != 0 then [REPLACEMENT] + ([u] + Emitted(rest, 0))
            else [u] + Emitted(rest, 0)
  {
    Tail(s, i);
    if !IsLead(s[i]) && !IsTrail(s[i]) && lead != 0 {
      TwoAhead(REPLACEMENT, s[i], Emitted(s[i + 1..], 0));
    }
  }

  lemma {:induction false} TwoAhead(x: Scalar, y: Scalar, rest: seq<Scalar>)
    ensures [x, y] + rest == [x] + ([y] + rest)
  {
  }

  /** The last unit is a lead surrogate that follows another one. */
  predicate EndsInTwoLeads(s: seq<Unit>) {
    |s| >= 2 && IsLead(s[|s| - 1]) && IsLead(s[|s| - 2])
  }

  function Trimmed(s: seq<Unit>): seq<Unit> {
    if EndsInTwoLeads(s) then s[..|s| - 1] else s
  }

  lemma {:induction false} EmittedScalars(s: seq<Unit>)
    ensures Emitted(s, 0) == Scalars(Trimmed(s))
    decreases |s|
  {
    if |s| >= 2 {
      var u, t := s[0], Trimmed(s);
      assert EndsInTwoLeads(s) && |s| >= 3 ==> EndsInTwoLeads(s[1..]);
      if IsLead(u) && IsTrail(s[1]) {
        EmittedScalars(s[2..]);
        assert s[1..][1..] == s[2..];
        assert t[2..] == Trimmed(s[2..]);
      } else if IsLead(u) && IsLead(s[1]) {
        assert s[1..][1..] == s[2..];
        EmittedScalars(s[1..]);
        if |s| == 2 {
          assert t[1..] == [] && s[2..] == [];
          assert Emitted(s[1..], u) == [REPLACEMENT] + Emitted(s[2..], s[1]);
          assert Scalars(t) == [REPLACEMENT] + Scalars(t[1..]);
        } else {
          assert Emitted(s[1..], 0) == Emitted(s[2..], s[1]);
          assert t[1..] == Trimmed(s[1..]);
        }
      } else if IsLead(u) {
        assert s[1..][1..] == s[2..];
        EmittedScalars(s[1..]);
        assert t[1..] == Trimmed(s[1..]);
      } else {
        EmittedScalars(s[1..]);
        assert t[1..] == Trimmed(s[1..]);
      }
    }
  }

  /** The longest run of whole characters that fits into `budget` bytes. */
  function Fitting(cs: seq<Scalar>, budget: int): (r: seq<Byte>)
    ensures |r| <= if budget < 0 then 0 else budget
  {
    if |cs| == 0 || |EncodeScalar(cs[0])| > budget then []
    else EncodeScalar(cs[0]) + Fitting(cs[1..], budget - |EncodeScalar(cs[0])|)
  }

  /** How many code points `Fitting` encodes. */
  function FittingCount(cs: seq<Scalar>, budget: int): (n: nat)
    ensures n <= |cs|
  {
    if |cs| == 0 || |EncodeScalar(cs[0])| > budget then 0
    else 1 + FittingCount(cs[1..], budget - |EncodeScalar(cs[0])|)
  }

  lemma {:induction false} FittingIsGreedyPrefix(cs: seq<Scalar>, budget: nat)
    ensures var n := FittingCount(cs, budget);
            && Fitting(cs, budget) == Utf8Bytes(cs[..n])
            && (n < |cs| ==> |Utf8Bytes(cs[..n + 1])| > budget)
  {
    if |cs| > 0 && |EncodeScalar(cs[0])| <= budget {
      var n := FittingCount(cs[1..], budget - |EncodeScalar(cs[0])|);
      FittingIsGreedyPrefix(cs[1..], budget - |EncodeScalar(cs[0])|);
      assert cs[..n + 1][1..] == cs[1..][..n];
      assert n + 1 < |cs| ==> cs[..n + 2][1..] == cs[1..][..n + 1];
    } else if |cs| > 0 {
      assert cs[..1][1..] == [];
    }
  }

  /** The output of the encoding loop with a budget, or without one. */
  function Output(cs: seq<Scalar>, limited: bool, budget: int): seq<Byte> {
    if limited then Fitting(cs, budget) else Utf8Bytes(cs)
  }

  lemma {:induction false} OutputFront(c: Scalar, cs: seq<Scalar>, limited: bool, budget: int)
    ensures Output([c] + cs, limited, budget)
         == if limited && |EncodeScalar(c)| > budget then []
            else EncodeScalar(c) + Output(cs, limited, budget - |EncodeScalar(c)|)
  {
    assert ([c] + cs)[1..] == cs;
  }

  /** What is written for one code point, and the budget left. */
  function Put(out: seq<Byte>, c: Scalar, limited: bool, budget: int): seq<Byte> {
    if limited && budget < |EncodeScalar(c)| then out else out + EncodeScalar(c)
  }

  /** `out` is what a run that should give `goal` has written, with `todo` still to come. */
  ghost predicate OnTrack(out: seq<Byte>, todo: seq<Scalar>, limited: bool, budget: int, goal: seq<Byte>) {
    if limited && budget < 0 then out == goal else out + Output(todo, limited, budget) == goal
  }

  lemma {:induction false} PutOnTrack(out: seq<Byte>, c: Scalar, cs: seq<Scalar>, limited: bool, budget: int,
                                      goal: seq<Byte>)
    requires OnTrack(out, [c] + cs, limited, budget, goal)
    ensures OnTrack(Put(out, c, limited, budget), cs, limited, budget - |EncodeScalar(c)|, goal)
  {
    OutputFront(c, cs, limited, budget);
    WithNothing(out, []);
    Assoc(out, EncodeScalar(c), Output(cs, limited, budget - |EncodeScalar(c)|));
  }

  /** Writes U+FFFD if it fits; the budget is charged either way. */
  method PutReplacement(out: seq<Byte>, limited: bool, budget: int, ghost todo: seq<Scalar>, ghost goal: seq<Byte>)
    returns (out': seq<Byte>, budget': int)
    requires OnTrack(out, [REPLACEMENT] + todo, limited, budget, goal)
    ensures OnTrack(out', todo, limited, budget', goal)
  {
    PutOnTrack(out, REPLACEMENT, todo, limited, budget, goal);
    out', budget' := out, budget - 3;
    if !limited || budget' > -1 {
      out' := out + [239, 191, 189];
    }
  }

  /**
   * The encoding loop. A `limit` of 0 means no budget. When a replacement character no longer fits, the loop
   * goes on with an overdrawn budget; any other character that does not fit ends it.
   */
  method Encode(s: seq<Unit>, limit: nat) returns (out: seq<Byte>)
    ensures out == Output(Emitted(s, 0), limit != 0, limit)
  {
    var limited, budget: int := limit != 0, limit;
    var lead: int := 0;
    ghost var goal := Output(Emitted(s, 0), limited, limit);
    out := [];
    for i := 0 to |s|
      invariant lead == 0 || IsLead(lead)
      invariant OnTrack(out, Emitted(s[i..], lead), limited, budget, goal)
    {
      var u: int := s[i];
      EmittedAt(s, i, lead);
      if IsLead(u) || IsTrail(u) {
        if lead == 0 {
          if IsTrail(u) || i + 1 == |s| {
            out, budget := PutReplacement(out, limited, budget, Emitted(s[i + 1..], 0), goal);
            continue;
          }
          lead := u;
          continue;
        }
        if IsLead(u) {
          out, budget := PutReplacement(out, limited, budget, Emitted(s[i + 1..], u), goal);
          lead := u;
          continue;
        }
        u := Combine(lead, u);
      } else if lead != 0 {
        out, budget := PutReplacement(out, limited, budget, [u] + Emitted(s[i + 1..], 0), goal);
      }
      lead := 0;
      PutOnTrack(out, u, Emitted(s[i + 1..], 0), limited, budget, goal);
      var e := EncodeScalar(u);
      budget := budget - |e|;
      if limited && budget < 0 { return; }
      out := out + e;
    }
  }

  // ---------------------------------------------------------------------------------------------
  // Main results
  // ---------------------------------------------------------------------------------------------

  /** The encoder without a budget, as a function. */
  function EncodeAll(s: seq<Unit>): seq<Byte> {
    Utf8Bytes(Emitted(s, 0))
  }

  /** Every string encodes to well-formed UTF-8, with or without a budget. */
  lemma {:induction false} EncoderWellFormed(s: seq<Unit>, limit: nat)
    ensures WellFormed(Output(Emitted(s, 0), limit != 0, limit))
  {
    var cs := Emitted(s, 0);
    FittingIsGreedyPrefix(cs, limit);
    BytesDecode(cs);
    BytesDecode(cs[..FittingCount(cs, limit)]);
  }

  lemma {:induction false} BytesInjective(a: seq<Scalar>, b: seq<Scalar>)
    requires Utf8Bytes(a) == Utf8Bytes(b)
    ensures a == b
  {
    BytesDecode(a);
    BytesDecode(b);
  }

  lemma {:induction false} ScalarsShrink(s: seq<Unit>)
    requires s != [] && IsLead(s[|s| - 1])
    ensures |Scalars(s)| == |Scalars(s[..|s| - 1])| + 1
    decreases |s|
  {
    var n := |s| - 1;
    if |s| > 1 {
      var k := if IsLead(s[0]) && IsTrail(s[1]) then 2 else 1;
      assert k < |s|;
      ScalarsShrink(s[k..]);
      assert s[k..][..n - k] == s[..n][k..];
      assert n == 1 ==> Scalars(s[..n]) == [Scalars(s)[0]];
    }
  }

  /**
   * The encoder replaces every unpaired surrogate by U+FFFD, except that it loses a final lead surrogate
   * directly behind another one.
   */
  lemma {:induction false} ReplacesSurrogatesIff(s: seq<Unit>)
    ensures EncodeAll(s) == Utf8Bytes(Scalars(s)) <==> !EndsInTwoLeads(s)
    ensures EncodeAll(s) == Utf8Bytes(Scalars(Trimmed(s)))
  {
    EmittedScalars(s);
    if EndsInTwoLeads(s) {
      ScalarsShrink(s);
      if EncodeAll(s) == Utf8Bytes(Scalars(s)) {
        BytesInjective(Scalars(Trimmed(s)), Scalars(s));
      }
    }
  }

  /** For example, of two lead surrogates only one leaves a replacement character. */
  lemma {:induction false} SecondLeadLost()
    ensures EncodeAll([0xD800, 0xD800]) != Utf8Bytes(Scalars([0xD800, 0xD800]))
  {
    ReplacesSurrogatesIff([0xD800, 0xD800]);
  }

  /** Strings survive encoding and decoding exactly when every surrogate is paired. */
  lemma {:induction false} StringRoundTripIff(s: seq<Unit>)
    ensures Decode(EncodeAll(s)) == s <==> PairedUnits(s)
  {
    var cs := Emitted(s, 0);
    BytesDecode(cs);
    UnitsScalars(cs);
    if PairedUnits(s) {
      EmittedScalars(s);
      PairedDoesNotEndInLead(s);
      ScalarsUnits(s);
    }
  }

  lemma {:induction false} PairedDoesNotEndInLead(s: seq<Unit>)
    requires PairedUnits(s)
    ensures s != [] ==> !IsLead(s[|s| - 1])
    decreases |s|
  {
    if |s| > 0 {
      PairedDoesNotEndInLead(s[if IsLead(s[0]) then 2 else 1..]);
    }
  }

  /** Bytes survive decoding and encoding exactly when they are well-formed. */
  lemma {:induction false} BytesRoundTripIff(b: seq<Byte>)
    ensures EncodeAll(Decode(b)) == b <==> WellFormed(b)
  {
    var cs := Decoded(b);
    UnitsScalars(cs);
    EmittedScalars(Units(cs));
    PairedDoesNotEndInLead(Units(cs));
    BytesDecode(cs);
    if WellFormed(b) {
      DecodedBytes(b);
    }
  }
}
