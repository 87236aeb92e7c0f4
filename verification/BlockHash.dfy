/**
 * The block buffering that the SHA-2 hashes share: bytes arrive in chunks of any size, every full block goes to
 * the compression function, and `digest` pads the rest. The compression function is a parameter.
 */
module BlockHash {
  import opened Bytes
  import opened Seqs

  /** The remainder of `n` by a block size. */
  function Rem(n: nat, size: nat): (r: nat)
    requires size > 0
    ensures r < size && r <= n
    decreases n
  {
    if n < size then n else Rem(n - size, size)
  }

  lemma {:induction false} RemIsRemainder(n: nat)
    ensures Rem(n, 64) == n % 64 && Rem(n, 128) == n % 128
  {
    Rem64(n);
    Rem128(n);
  }

  lemma {:induction false} Rem64(n: nat)
    ensures Rem(n, 64) == n % 64
  {
    if n >= 64 {
      Rem64(n - 64);
    }
  }

  lemma {:induction false} Rem128(n: nat)
    ensures Rem(n, 128) == n % 128
  {
    if n >= 128 {
      Rem128(n - 128);
    }
  }

  lemma {:induction false} RemRound(n: nat, size: nat)
    requires size > 0
    ensures Rem(n - Rem(n, size), size) == 0
  {
    if n >= size {
      RemRound(n - size, size);
    }
  }

  lemma {:induction false} RemAdd(n: nat, k: nat, size: nat)
    requires size > 0 && Rem(n, size) + k <= size
    ensures Rem(n + k, size) == if Rem(n, size) + k == size then 0 else Rem(n, size) + k
  {
    if n >= size {
      RemAdd(n - size, k, size);
    } else if n + k == size {
      assert Rem(0, size) == 0;
    }
  }

  /** Folds the compression function `f` over the blocks of `data`, whose length is a multiple of `size`. */
  function Absorb<S>(f: (S, seq<Byte>) -> S, s: S, data: seq<Byte>, size: nat): S
    requires size > 0
    decreases |data|
  {
    if |data| < size then s else Absorb(f, f(s, data[..size]), data[size..], size)
  }

  /** One more block at the end is absorbed last. */
  lemma {:induction false} AbsorbAppend<S>(f: (S, seq<Byte>) -> S, s: S, data: seq<Byte>, block: seq<Byte>, size: nat)
    requires size > 0 && |block| == size && Rem(|data|, size) == 0
    ensures Absorb(f, s, data + block, size) == f(Absorb(f, s, data, size), block)
    decreases |data|
  {
    var all := data + block;
    if |data| < size {
      assert data == [];
      assert all == block && block[..size] == block;
    } else {
      assert all[..size] == data[..size] && all[size..] == data[size..] + block;
      assert Rem(|data[size..]|, size) == 0;
      AbsorbAppend(f, f(s, data[..size]), data[size..], block, size);
    }
  }

  lemma {:induction false} AbsorbTwo<S>(f: (S, seq<Byte>) -> S, s: S, data: seq<Byte>, b1: seq<Byte>, b2: seq<Byte>,
                                        size: nat)
    requires size > 0 && |b1| == |b2| == size && Rem(|data|, size) == 0
    ensures Absorb(f, s, data + b1 + b2, size) == f(f(Absorb(f, s, data, size), b1), b2)
  {
    AbsorbAppend(f, s, data, b1, size);
    RemAdd(|data|, size, size);
    AbsorbAppend(f, s, data + b1, b2, size);
  }

  function Zeros(n: nat): (z: seq<Byte>)
    ensures |z| == n && forall i :: 0 <= i < n ==> z[i] == 0
  {
    seq(n, i => 0)
  }

  /** Block and final size of the hash family: SHA-224/256 or SHA-384/512. */
  predicate Sizes(blockSize: nat, finalSize: nat) {
    (blockSize == 64 && finalSize == 56) || (blockSize == 128 && finalSize == 112)
  }

  /** How many zero bytes section 5.1 of FIPS 180-4 puts between the 0x80 byte and the length. */
  function ZeroCount(length: nat, blockSize: nat, finalSize: nat): (z: nat)
    requires Sizes(blockSize, finalSize)
    ensures z < blockSize && Rem(length + 1 + z, blockSize) == finalSize
  {
    var t := Rem(length, blockSize);
    if t < finalSize then
      RemAdd(length, finalSize - t, blockSize);
      finalSize - 1 - t
    else
      RemAdd(length, blockSize - t, blockSize);
      RemAdd(length + blockSize - t, finalSize, blockSize);
      blockSize + finalSize - 1 - t
  }

  /** The padded message of section 5.1 of FIPS 180-4. */
  function Padded(msg: seq<Byte>, blockSize: nat, finalSize: nat): (p: seq<Byte>)
    requires Sizes(blockSize, finalSize)
    ensures Rem(|p|, blockSize) == 0
  {
    RemAdd(|msg| + 1 + ZeroCount(|msg|, blockSize, finalSize), blockSize - finalSize, blockSize);
    msg + [0x80] + Zeros(ZeroCount(|msg|, blockSize, finalSize)) + ToBigEndian(8 * |msg|, blockSize - finalSize)
  }

  /** `k` zero bytes bring the length field to the end of a block. */
  predicate Aligns(length: nat, k: nat, blockSize: nat)
    requires blockSize == 64 || blockSize == 128
  {
    if blockSize == 64 then (length + 1 + k) % 64 == 56 else (length + 1 + k) % 128 == 112
  }

  /** The zeros are the fewest that do, as section 5.1 of FIPS 180-4 has it, and the padded message fills its blocks. */
  lemma {:induction false} PaddingIsLeast(msg: seq<Byte>, blockSize: nat, finalSize: nat, k: nat)
    requires Sizes(blockSize, finalSize)
    ensures var z := ZeroCount(|msg|, blockSize, finalSize);
            Aligns(|msg|, z, blockSize) && (k < z ==> !Aligns(|msg|, k, blockSize))
    ensures var n := |Padded(msg, blockSize, finalSize)|; if blockSize == 64 then n % 64 == 0 else n % 128 == 0
  {
    var z := ZeroCount(|msg|, blockSize, finalSize);
    RemIsRemainder(|msg| + 1 + z);
    RemIsRemainder(|Padded(msg, blockSize, finalSize)|);
    if k < z {
      NotTwice(|msg| + 1 + k, z - k, blockSize);
    }
  }

  lemma {:induction false} NotTwice(n: nat, d: nat, blockSize: nat)
    requires (blockSize == 64 || blockSize == 128) && 0 < d < blockSize
    ensures if blockSize == 64 then (n + d) % 64 != n % 64 else (n + d) % 128 != n % 128
  {
  }

  // ---------------------------------------------------------------------------------------------
  // The buffer between calls
  // ---------------------------------------------------------------------------------------------

  /** After the message so far, `chain` has absorbed its full blocks and `tail` is what is left over. */
  ghost predicate Buffers<S>(f: (S, seq<Byte>) -> S, init: S, size: nat, msg: seq<Byte>, chain: S, tail: seq<Byte>)
    requires size > 0
  {
    var full := |msg| - Rem(|msg|, size);
    tail == msg[full..] && chain == Absorb(f, init, msg[..full], size)
  }

  /** Bytes that do not overfill the block move on the buffer, through the compression function when it is full. */
  lemma {:induction false} BuffersMore<S>(f: (S, seq<Byte>) -> S, init: S, size: nat, msg: seq<Byte>, chain: S,
                                          tail: seq<Byte>, part: seq<Byte>)
    requires size > 0 && Buffers(f, init, size, msg, chain, tail)
    requires 0 < |part| <= size - Rem(|msg|, size)
    ensures |tail| == Rem(|msg|, size)
    ensures if |tail| + |part| == size
            then Buffers(f, init, size, msg + part, f(chain, tail + part), []) && Rem(|msg + part|, size) == 0
            else Buffers(f, init, size, msg + part, chain, tail + part) && Rem(|msg + part|, size) == |tail| + |part|
  {
    var full := |msg| - Rem(|msg|, size);
    var all := msg + part;
    RemAdd(|msg|, |part|, size);
    RemRound(|msg|, size);
    if |tail| + |part| == size {
      assert |all| == full + size && Rem(|all|, size) == 0;
      assert all[..|all|] == msg[..full] + (tail + part);
      AbsorbAppend(f, init, msg[..full], tail + part, size);
    } else {
      assert |all| - Rem(|all|, size) == full;
      assert all[full..] == tail + part && all[..full] == msg[..full];
    }
  }

  // ---------------------------------------------------------------------------------------------
  // Padding
  // ---------------------------------------------------------------------------------------------

  /** The last eight bytes of a final block, from the two 32-bit words the code writes. */
  lemma {:induction false} LengthField(bits: nat, width: nat)
    requires bits < 0x1_0000_0000_0000_0000 && (width == 8 || width == 16)
    ensures ToBigEndian(bits, width)
         == Zeros(width - 8) + ToBigEndian(bits / 0x1_0000_0000, 4) + ToBigEndian(bits % 0x1_0000_0000, 4)
  {
    var hi := bits / 0x1_0000_0000;
    ToBigEndianSplit(bits, width - 4);
    ToBigEndianSplit(hi, width - 8);
    assert hi / 0x1_0000_0000 == 0 && hi % 0x1_0000_0000 == hi;
    ZeroBytes(width - 8);
  }

  lemma {:induction false} ZeroBytes(n: nat)
    ensures ToBigEndian(0, n) == Zeros(n)
  {
    if n > 0 {
      ZeroBytes(n - 1);
    }
  }

  /** The block that carries the length, with `head` in front. */
  function LastBlock(head: seq<Byte>, bits: nat, blockSize: nat): seq<Byte>
    requires |head| <= blockSize - 8
  {
    head + Zeros(blockSize - 8 - |head|) + ToBigEndian(bits / 0x1_0000_0000, 4) + ToBigEndian(bits % 0x1_0000_0000, 4)
  }

  lemma {:induction false} ZeroCountCases(length: nat, blockSize: nat, finalSize: nat)
    requires Sizes(blockSize, finalSize)
    ensures var t := Rem(length, blockSize);
            ZeroCount(length, blockSize, finalSize) ==
            if t < finalSize then finalSize - 1 - t else blockSize + finalSize - 1 - t
  {
  }

  lemma {:induction false} ZerosSum(m: nat, n: nat)
    ensures Zeros(m) + Zeros(n) == Zeros(m + n)
  {
  }

  lemma {:induction false} RegroupOne(a: seq<Byte>, b: seq<Byte>, x: seq<Byte>, z1: seq<Byte>, z2: seq<Byte>,
                                      h: seq<Byte>, l: seq<Byte>)
    ensures (a + b) + x + z1 + (z2 + h + l) == a + ((b + x) + (z1 + z2) + h + l)
  {
  }

  lemma {:induction false} RegroupTwo(a: seq<Byte>, b: seq<Byte>, x: seq<Byte>, z1: seq<Byte>, z2: seq<Byte>,
                                      h: seq<Byte>, l: seq<Byte>)
    ensures (a + b) + x + (z1 + z2) + (h + l) == a + (b + x + z1) + (z2 + h + l)
  {
  }

  lemma {:induction false} PaddedInOneBlock(msg: seq<Byte>, full: nat, blockSize: nat, finalSize: nat)
    requires Sizes(blockSize, finalSize) && Rem(|msg|, blockSize) < finalSize && |msg| < 0x20_0000_0000_0000
    requires full == |msg| - Rem(|msg|, blockSize)
    ensures Padded(msg, blockSize, finalSize) == msg[..full] + LastBlock(msg[full..] + [0x80], 8 * |msg|, blockSize)
  {
    var z, bits := ZeroCount(|msg|, blockSize, finalSize), 8 * |msg|;
    ZeroCountCases(|msg|, blockSize, finalSize);
    LengthField(bits, blockSize - finalSize);
    ZerosSum(z, blockSize - finalSize - 8);
    assert msg == msg[..full] + msg[full..];
    RegroupOne(msg[..full], msg[full..], [0x80], Zeros(z), Zeros(blockSize - finalSize - 8),
               ToBigEndian(bits / 0x1_0000_0000, 4), ToBigEndian(bits % 0x1_0000_0000, 4));
  }

  lemma {:induction false} PaddedInTwoBlocks(msg: seq<Byte>, full: nat, blockSize: nat, finalSize: nat)
    requires Sizes(blockSize, finalSize) && Rem(|msg|, blockSize) >= finalSize && |msg| < 0x20_0000_0000_0000
    requires full == |msg| - Rem(|msg|, blockSize)
    ensures Padded(msg, blockSize, finalSize)
         == msg[..full] + (msg[full..] + [0x80] + Zeros(blockSize - 1 - Rem(|msg|, blockSize)))
            + LastBlock([], 8 * |msg|, blockSize)
  {
    var z, bits := ZeroCount(|msg|, blockSize, finalSize), 8 * |msg|;
    var z1, z2 := blockSize - 1 - Rem(|msg|, blockSize), finalSize;
    ZeroCountCases(|msg|, blockSize, finalSize);
    LengthField(bits, blockSize - finalSize);
    ZerosSum(z1, z2);
    ZerosSum(finalSize, blockSize - finalSize - 8);
    assert msg == msg[..full] + msg[full..];
    var h, l := ToBigEndian(bits / 0x1_0000_0000, 4), ToBigEndian(bits % 0x1_0000_0000, 4);
    var y := Zeros(blockSize - finalSize - 8);
    RegroupTwo(msg[..full], msg[full..], [0x80], Zeros(z1), Zeros(z2), y + h, l);
    RegroupLength(Zeros(z2), y, h, l);
  }

  lemma {:induction false} RegroupLength(z: seq<Byte>, y: seq<Byte>, h: seq<Byte>, l: seq<Byte>)
    ensures z + (y + h) + l == [] + (z + y) + h + l
  {
  }

  /** When the length fits behind the tail, one more block completes the padded message. */
  lemma {:induction false} DigestOne<S>(f: (S, seq<Byte>) -> S, init: S, size: nat, finalSize: nat, msg: seq<Byte>,
                                        chain: S, tail: seq<Byte>)
    requires Sizes(size, finalSize) && Buffers(f, init, size, msg, chain, tail) && |msg| < MAX_LENGTH
    requires Rem(|msg|, size) < finalSize
    ensures Absorb(f, init, Padded(msg, size, finalSize), size) == f(chain, LastBlock(tail + [0x80], 8 * |msg|, size))
  {
    var full := |msg| - Rem(|msg|, size);
    PaddedInOneBlock(msg, full, size, finalSize);
    RemRound(|msg|, size);
    AbsorbAppend(f, init, msg[..full], LastBlock(tail + [0x80], 8 * |msg|, size), size);
  }

  /** Otherwise the tail's block is filled with zeros and the length goes into a block of its own. */
  lemma {:induction false} DigestTwo<S>(f: (S, seq<Byte>) -> S, init: S, size: nat, finalSize: nat, msg: seq<Byte>,
                                        chain: S, tail: seq<Byte>)
    requires Sizes(size, finalSize) && Buffers(f, init, size, msg, chain, tail) && |msg| < MAX_LENGTH
    requires Rem(|msg|, size) >= finalSize
    ensures |tail| == Rem(|msg|, size)
    ensures Absorb(f, init, Padded(msg, size, finalSize), size)
         == f(f(chain, tail + [0x80] + Zeros(size - 1 - |tail|)), LastBlock([], 8 * |msg|, size))
  {
    var full := |msg| - Rem(|msg|, size);
    var spill := tail + [0x80] + Zeros(size - 1 - |tail|);
    PaddedInTwoBlocks(msg, full, size, finalSize);
    RemRound(|msg|, size);
    AbsorbTwo(f, init, msg[..full], spill, LastBlock([], 8 * |msg|, size), size);
  }

  // ---------------------------------------------------------------------------------------------
  // The hash object
  // ---------------------------------------------------------------------------------------------

  /** Byte counts stay exact in double precision below 2^53. */
  const MAX_LENGTH := 0x20_0000_0000_0000

  class Hash<S> {
    const blockSize: nat
    const finalSize: nat
    const compress: (S, seq<Byte>) -> S
    const block: array<Byte>
    var length: nat
    var chain: S

    ghost const initial: S
    ghost var msg: seq<Byte>

    ghost predicate Valid()
      reads this, block
    {
      && Sizes(blockSize, finalSize) && block.Length == blockSize
      && length == |msg| < MAX_LENGTH
      && Buffers(compress, initial, blockSize, msg, chain, block[..Rem(length, blockSize)])
    }

    constructor (blockSize: nat, finalSize: nat, compress: (S, seq<Byte>) -> S, start: S)
      requires Sizes(blockSize, finalSize)
      ensures Valid() && msg == [] && initial == start && fresh(block)
      ensures this.blockSize == blockSize && this.finalSize == finalSize && this.compress == compress
    {
      this.blockSize, this.finalSize, this.compress := blockSize, finalSize, compress;
      block := new Byte[blockSize](i => 0);
      length, chain := 0, start;
      initial, msg := start, [];
    }

    /** Copies `part` into the block from index `at` on. */
    method Fill(part: seq<Byte>, at: nat)
      requires at + |part| <= block.Length
      modifies block
      ensures block[..at + |part|] == old(block[..at]) + part
      ensures block[at + |part|..] == old(block[at + |part|..])
    {
      for i := 0 to |part|
        invariant block[..at] == old(block[..at]) && block[at..at + i] == part[..i]
        invariant block[at + i..] == old(block[at + i..])
      {
        block[at + i] := part[i];
        assert block[at + i + 1..] == old(block[at + i + 1..]);
      }
      assert block[..at + |part|] == block[..at] + block[at..at + |part|];
    }

    /** Adds bytes that fit into the block, and compresses it once it is full. */
    method TakePart(part: seq<Byte>, offset: nat, ghost sofar: seq<Byte>)
      requires Sizes(blockSize, finalSize) && block.Length == blockSize && offset == |sofar|
      requires Buffers(compress, initial, blockSize, sofar, chain, block[..Rem(offset, blockSize)])
      requires 0 < |part| <= blockSize - Rem(offset, blockSize)
      modifies `chain, block
      ensures Buffers(compress, initial, blockSize, sofar + part, chain, block[..Rem(offset + |part|, blockSize)])
    {
      var at := Rem(offset, blockSize);
      BuffersMore(compress, initial, blockSize, sofar, chain, block[..at], part);
      Fill(part, at);
      if Rem(offset + |part|, blockSize) == 0 {
        assert block[..] == block[..at + |part|];
        chain := compress(chain, block[..]);
      }
    }

    /** Adds as much of `data` from index `used` on as the block has room for. */
    method TakeNext(data: seq<Byte>, used: nat, offset: nat, ghost sofar: seq<Byte>) returns (n: nat)
      requires Sizes(blockSize, finalSize) && block.Length == blockSize && offset == |sofar| && used < |data|
      requires Buffers(compress, initial, blockSize, sofar, chain, block[..Rem(offset, blockSize)])
      modifies `chain, block
      ensures 0 < n <= |data| - used
      ensures Buffers(compress, initial, blockSize, sofar + data[used..used + n], chain,
                      block[..Rem(offset + n, blockSize)])
    {
      var room := blockSize - Rem(offset, blockSize);
      n := if |data| - used < room then |data| - used else room;
      TakePart(data[used..used + n], offset, sofar);
    }

    /** The loop of `update`: parts of at most the room left in the block. */
    method TakeParts(data: seq<Byte>, start: nat, ghost sofar: seq<Byte>)
      requires Sizes(blockSize, finalSize) && block.Length == blockSize && start == |sofar|
      requires Buffers(compress, initial, blockSize, sofar, chain, block[..Rem(start, blockSize)])
      modifies `chain, block
      ensures Buffers(compress, initial, blockSize, sofar + data, chain, block[..Rem(start + |data|, blockSize)])
    {
      var used := 0;
      ghost var m := sofar;
      while used < |data|
        invariant 0 <= used <= |data| && |m| == start + used && m + data[used..] == sofar + data
        invariant Buffers(compress, initial, blockSize, m, chain, block[..Rem(start + used, blockSize)])
      {
        var n := TakeNext(data, used, start + used, m);
        MoveOver(m, data, used, n);
        m := m + data[used..used + n];
        used := used + n;
      }
      WithNothing(m, data[used..]);
    }

    /** Takes in a chunk of any length. */
    method Update(data: seq<Byte>)
      requires Valid() && length + |data| < MAX_LENGTH
      modifies this, block
      ensures Valid() && msg == old(msg) + data
    {
      TakeParts(data, length, msg);
      length := length + |data|;
      msg := msg + data;
    }

    /** `writeUInt32BE`. */
    method WriteWord(v: nat, at: nat)
      requires v < 0x1_0000_0000 && at + 4 <= block.Length
      modifies block
      ensures block[..] == old(block[..at]) + ToBigEndian(v, 4) + old(block[at + 4..])
    {
      FourBytes(v, 0);
      Fill([v / 0x100_0000 % 0x100, v / 0x1_0000 % 0x100, v / 0x100 % 0x100, v % 0x100], at);
      assert block[..] == block[..at + 4] + block[at + 4..];
    }

    /** Ends the tail in the block with the 0x80 byte and zeros. */
    method Terminate(t: nat)
      requires t < block.Length
      modifies block
      ensures block[..] == old(block[..t]) + [0x80] + Zeros(block.Length - 1 - t)
    {
      block[t] := 128;
      Fill(Zeros(block.Length - 1 - t), t + 1);
      assert block[..] == block[..t + 1 + (block.Length - 1 - t)];
    }

    /** Writes the bit length into the last eight bytes of a block that holds zeros there. */
    method WriteLength(ghost head: seq<Byte>)
      requires Sizes(blockSize, finalSize) && block.Length == blockSize && length < MAX_LENGTH
      requires |head| <= blockSize - 8 && block[..] == head + Zeros(blockSize - |head|)
      modifies block
      ensures block[..] == LastBlock(head, 8 * length, blockSize)
    {
      var bits := 8 * length;
      ZerosSum(blockSize - 8 - |head|, 8);
      ZerosSum(4, 4);
      if bits <= 4294967295 {
        WriteWord(bits, blockSize - 4);
        ZeroBytes(4);
        assert bits / 0x1_0000_0000 == 0 && bits % 0x1_0000_0000 == bits;
      } else {
        WriteWord(bits / 0x1_0000_0000, blockSize - 8);
        WriteWord(bits % 0x1_0000_0000, blockSize - 4);
      }
    }

    /** The chaining value after the padded message. */
    method Digest() returns (final: S)
      requires Valid()
      modifies this, block
      ensures final == Absorb(compress, initial, Padded(old(msg), blockSize, finalSize), blockSize)
    {
      var t := Rem(length, blockSize);
      ghost var tail := block[..t];
      Terminate(t);
      if t >= finalSize {
        DigestTwo(compress, initial, blockSize, finalSize, msg, chain, tail);
        chain := compress(chain, block[..]);
        Fill(Zeros(blockSize), 0);
        assert block[..] == block[..0 + blockSize] == [] + Zeros(blockSize);
        WriteLength([]);
      } else {
        DigestOne(compress, initial, blockSize, finalSize, msg, chain, tail);
        WriteLength(tail + [0x80]);
      }
      final := compress(chain, block[..]);
      chain := final;
    }
  }
}
