/** SHA-512 put together: the block buffer over the half-word compression function, and the digest bytes. */
module Sha512Hash {
  import opened Bytes
  import opened Words
  import opened Sha512
  import opened BlockHash

  /** The compression function of FIPS 180-4 on a block of bytes; the buffer only ever passes full blocks. */
  function Step64(s: Regs<Full>, b: seq<Byte>): Regs<Full> {
    if |b| == 128 then Compress(s, b) else s
  }

  /** The chaining step on half words, which the method `Sha512.Update` computes. */
  function StepHalves(r: Regs<Pair>, b: seq<Byte>): Regs<Pair> {
    if |b| == 128 then HalfCompress(r, b) else r
  }

  lemma {:induction false} StepJoined(r: Regs<Pair>, b: seq<Byte>)
    ensures JoinedRegs(StepHalves(r, b)) == Step64(JoinedRegs(r), b)
  {
    if |b| == 128 {
      HalfCompressJoined(r, b);
    }
  }

  /** Folding two steps that commute with a view of the state commutes with it too. */
  lemma {:induction false} AbsorbCommutes<S, T>(
    f: (S, seq<Byte>) -> S, g: (T, seq<Byte>) -> T, view: S -> T, s: S, data: seq<Byte>, size: nat)
    requires size > 0 && forall s, b :: view(f(s, b)) == g(view(s), b)
    ensures view(Absorb(f, s, data, size)) == Absorb(g, view(s), data, size)
    decreases |data|
  {
    if |data| >= size {
      assert view(f(s, data[..size])) == g(view(s), data[..size]);
      AbsorbCommutes(f, g, view, f(s, data[..size]), data[size..], size);
    }
  }

  /** Over a whole message, the chain of half words is the chain of 64-bit words. */
  lemma {:induction false} AbsorbJoined(r: Regs<Pair>, data: seq<Byte>)
    ensures JoinedRegs(Absorb(StepHalves, r, data, 128)) == Absorb(Step64, JoinedRegs(r), data, 128)
  {
    forall r, b
      ensures JoinedRegs(StepHalves(r, b)) == Step64(JoinedRegs(r), b)
    {
      StepJoined(r, b);
    }
    AbsorbCommutes(StepHalves, Step64, JoinedRegs, r, data, 128);
  }

  /** The initial hash value of section 5.3.5 of FIPS 180-4: the roots of the first eight primes, in their order. */
  function InitialWords(): Regs<Full> {
    Regs(RootWord(0), RootWord(1), RootWord(2), RootWord(3), RootWord(4), RootWord(5), RootWord(6), RootWord(7))
  }

  function RootWord(i: nat): Full
    requires i < 8
  {
    ConstantCounts();
    ConstantPair(INITIAL[i]).Joined()
  }

  lemma {:induction false} InitialJoined()
    ensures JoinedRegs(InitialHalves()) == InitialWords()
  {
  }

  /** The same in halves. */
  function InitialHalves(): Regs<Pair> {
    ConstantCounts();
    Regs(ConstantPair(INITIAL[0]), ConstantPair(INITIAL[1]), ConstantPair(INITIAL[2]), ConstantPair(INITIAL[3]),
         ConstantPair(INITIAL[4]), ConstantPair(INITIAL[5]), ConstantPair(INITIAL[6]), ConstantPair(INITIAL[7]))
  }

  function WordBytes(x: Full): seq<Byte> {
    ToBigEndian(Val(x), 8)
  }

  /** SHA-512 as FIPS 180-4 defines it. */
  function Fips(msg: seq<Byte>): seq<Byte> {
    var s := Absorb(Step64, InitialWords(), Padded(msg, 128, 112), 128);
    WordBytes(s.a) + WordBytes(s.b) + WordBytes(s.c) + WordBytes(s.d)
    + WordBytes(s.e) + WordBytes(s.f) + WordBytes(s.g) + WordBytes(s.h)
  }

  /** The bytes of a pair: both halves, high half first. */
  function PairBytes(p: Pair): seq<Byte> {
    ToBigEndian(Val(p.hi), 4) + ToBigEndian(Val(p.lo), 4)
  }

  lemma {:induction false} PairBytesJoined(p: Pair)
    ensures PairBytes(p) == WordBytes(p.Joined())
  {
    JoinedValue(p);
    ToBigEndianPair(Val(p.Joined()), Val(p.hi), Val(p.lo));
  }

  /** `_hash`. */
  function Output(r: Regs<Pair>): seq<Byte> {
    PairBytes(r.a) + PairBytes(r.b) + PairBytes(r.c) + PairBytes(r.d)
    + PairBytes(r.e) + PairBytes(r.f) + PairBytes(r.g) + PairBytes(r.h)
  }

  lemma {:induction false} OutputIsFips(msg: seq<Byte>)
    ensures Output(Absorb(StepHalves, InitialHalves(), Padded(msg, 128, 112), 128)) == Fips(msg)
  {
    var r := Absorb(StepHalves, InitialHalves(), Padded(msg, 128, 112), 128);
    AbsorbJoined(InitialHalves(), Padded(msg, 128, 112));
    InitialJoined();
    PairBytesJoined(r.a);
    PairBytesJoined(r.b);
    PairBytesJoined(r.c);
    PairBytesJoined(r.d);
    PairBytesJoined(r.e);
    PairBytesJoined(r.f);
    PairBytesJoined(r.g);
    PairBytesJoined(r.h);
  }

  lemma {:induction false} FlattenPrefix(chunks: seq<seq<Byte>>, i: nat)
    requires i < |chunks|
    ensures Flatten(chunks[..i + 1]) == Flatten(chunks[..i]) + chunks[i]
    ensures |Flatten(chunks[..i + 1])| <= |Flatten(chunks)|
  {
    FlattenConcat(chunks[..i], [chunks[i]]);
    FlattenOne(chunks[i]);
    FlattenConcat(chunks[..i + 1], chunks[i + 1..]);
    assert chunks[..i + 1] == chunks[..i] + [chunks[i]];
    assert chunks == chunks[..i + 1] + chunks[i + 1..];
  }

  /** Hashing a message given in any chunks gives its SHA-512 digest. */
  method Digest(chunks: seq<seq<Byte>>) returns (digest: seq<Byte>)
    requires |Flatten(chunks)| < MAX_LENGTH
    ensures digest == Fips(Flatten(chunks))
  {
    var hash := new Hash(128, 112, StepHalves, InitialHalves());
    for i := 0 to |chunks|
      invariant hash.Valid() && fresh(hash) && fresh(hash.block) && hash.msg == Flatten(chunks[..i])
    {
      FlattenPrefix(chunks, i);
      hash.Update(chunks[i]);
    }
    assert chunks[..|chunks|] == chunks;
    var r := hash.Digest();
    digest := Output(r);
    OutputIsFips(Flatten(chunks));
  }
}
