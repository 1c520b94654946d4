/** Bit strings, their numeric values, and byte packing in the order RFC 1951 section 3.1.1 prescribes. */
module Bits {

  type byte = b: int | 0 <= b < 256

  /** v << n. */
  function Shl(v: nat, n: nat): nat {
    if n == 0 then v else 2 * Shl(v, n - 1)
  }

  /** v >> n. */
  function Shr(v: nat, n: nat): nat {
    if n == 0 then v else Shr(v / 2, n - 1)
  }

  /** v & ((1 << n) - 1). */
  function Low(v: nat, n: nat): nat {
    if n == 0 then 0 else v % 2 + 2 * Low(v / 2, n - 1)
  }

  function Pow2(n: nat): nat {
    Shl(1, n)
  }

  lemma {:induction false} ShlAdd(a: nat, b: nat, n: nat)
    ensures Shl(a + b, n) == Shl(a, n) + Shl(b, n)
  {
    if n > 0 {
      ShlAdd(a, b, n - 1);
    }
  }

  lemma {:induction false} ShlMonotone(a: nat, b: nat, n: nat)
    requires a <= b
    ensures Shl(a, n) <= Shl(b, n)
  {
    if n > 0 {
      ShlMonotone(a, b, n - 1);
    }
  }

  lemma {:induction false} ShlCancel(a: nat, b: nat, n: nat)
    requires Shl(a, n) <= Shl(b, n)
    ensures a <= b
  {
    if n > 0 {
      ShlCancel(a, b, n - 1);
    }
  }

  lemma {:induction false} ShlShl(v: nat, m: nat, n: nat)
    ensures Shl(Shl(v, m), n) == Shl(v, m + n)
  {
    if n > 0 {
      ShlShl(v, m, n - 1);
    }
  }

  lemma {:induction false} ShlGrows(v: nat, n: nat)
    ensures v <= Shl(v, n)
  {
    if n > 0 {
      ShlGrows(v, n - 1);
    }
  }

  lemma Pow2Monotone(m: nat, n: nat)
    requires m <= n
    ensures 1 <= Pow2(m) <= Pow2(n)
  {
    ShlShl(1, m, n - m);
    ShlGrows(Pow2(m), n - m);
    ShlGrows(1, m);
  }

  lemma Pow2Values()
    ensures Pow2(0) == 1 && Pow2(1) == 2 && Pow2(2) == 4 && Pow2(3) == 8 && Pow2(4) == 16 && Pow2(5) == 32
    ensures Pow2(6) == 64 && Pow2(7) == 128 && Pow2(8) == 256 && Pow2(9) == 512 && Pow2(10) == 1024
    ensures Pow2(13) == 8192 && Pow2(15) == 32768 && Pow2(16) == 65536
  {
    assert Pow2(4) == 16;
    assert Pow2(8) == 256;
    assert Pow2(12) == 4096;
  }

  lemma {:induction false} LowBound(v: nat, n: nat)
    ensures Low(v, n) < Pow2(n)
    ensures Low(v, n) <= v
  {
    if n > 0 {
      LowBound(v / 2, n - 1);
    }
  }

  lemma {:induction false} LowSmall(v: nat, n: nat)
    requires v < Pow2(n)
    ensures Low(v, n) == v
    ensures Shr(v, n) == 0
  {
    if n > 0 {
      LowSmall(v / 2, n - 1);
    }
  }

  /** A number is its high part, shifted, plus its low part. */
  lemma {:induction false} SplitShift(v: nat, n: nat)
    ensures v == Shl(Shr(v, n), n) + Low(v, n)
  {
    if n > 0 {
      SplitShift(v / 2, n - 1);
    }
  }

  // ----- bit strings, least significant bit first -----

  /** The n low bits of v, least significant first. */
  function NatBits(v: nat, n: nat): (bits: seq<bool>)
    ensures |bits| == n
  {
    if n == 0 then [] else [v % 2 == 1] + NatBits(v / 2, n - 1)
  }

  /** The value of a bit string whose first bit is the least significant. */
  function BitsNat(bits: seq<bool>): nat
  {
    if bits == [] then 0 else (if bits[0] then 1 else 0) + 2 * BitsNat(bits[1..])
  }

  lemma {:induction false} BitsNatBound(bits: seq<bool>)
    ensures BitsNat(bits) < Pow2(|bits|)
  {
    if bits != [] {
      BitsNatBound(bits[1..]);
    }
  }

  lemma {:induction false} NatBitsOfBitsNat(bits: seq<bool>)
    ensures NatBits(BitsNat(bits), |bits|) == bits
  {
    if bits != [] {
      NatBitsOfBitsNat(bits[1..]);
      assert BitsNat(bits) / 2 == BitsNat(bits[1..]);
    }
  }

  lemma {:induction false} BitsNatOfNatBits(v: nat, n: nat)
    ensures BitsNat(NatBits(v, n)) == Low(v, n)
  {
    if n > 0 {
      BitsNatOfNatBits(v / 2, n - 1);
      assert NatBits(v, n)[1..] == NatBits(v / 2, n - 1);
    }
  }

  /** Putting w above the n bits of v appends w's bits: what `bit_buffer |= bits << bits_in` does. */
  lemma {:induction false} NatBitsAppend(v: nat, n: nat, w: nat, m: nat)
    requires v < Pow2(n)
    ensures NatBits(v + Shl(w, n), n + m) == NatBits(v, n) + NatBits(w, m)
    ensures w < Pow2(m) ==> v + Shl(w, n) < Pow2(n + m)
  {
    if n > 0 {
      NatBitsAppend(v / 2, n - 1, w, m);
      assert (v + Shl(w, n)) / 2 == v / 2 + Shl(w, n - 1);
      assert (v + Shl(w, n)) % 2 == v % 2;
    } else {
      assert v == 0;
    }
  }

  /** Dropping the n low bits: what `bit_buf >>= n` does. */
  lemma {:induction false} NatBitsDrop(v: nat, n: nat, m: nat)
    ensures NatBits(v, n + m)[n..] == NatBits(Shr(v, n), m)
  {
    if n > 0 {
      NatBitsDrop(v / 2, n - 1, m);
      assert NatBits(v, n + m) == [v % 2 == 1] + NatBits(v / 2, n - 1 + m);
    }
  }

  lemma {:induction false} ShrBound(v: nat, n: nat, m: nat)
    requires v < Pow2(n + m)
    ensures Shr(v, n) < Pow2(m)
  {
    if n > 0 {
      ShrBound(v / 2, n - 1, m);
    }
  }

  /** Keeping the n low bits. */
  lemma {:induction false} NatBitsTake(v: nat, n: nat, m: nat)
    ensures NatBits(v, n + m)[..n] == NatBits(v, n)
  {
    if n > 0 {
      NatBitsTake(v / 2, n - 1, m);
      assert NatBits(v, n + m) == [v % 2 == 1] + NatBits(v / 2, n - 1 + m);
    }
  }

  lemma NatBitsLow(v: nat, n: nat)
    ensures NatBits(Low(v, n), n) == NatBits(v, n)
  {
    BitsNatOfNatBits(v, n);
    NatBitsOfBitsNat(NatBits(v, n));
  }

  /** Bit i of v. */
  lemma NatBitsAt(v: nat, n: nat, i: nat)
    requires i < n
    ensures NatBits(v, n)[i] == (Shr(v, i) % 2 == 1)
  {
    NatBitsDrop(v, i, n - i);
    assert NatBits(v, n)[i] == NatBits(v, n)[i..][0];
  }

  // ----- bit strings, most significant bit first -----

  /** The n low bits of v, most significant first: the order in which a Huffman code is transmitted. */
  function MsbBits(v: nat, n: nat): (bits: seq<bool>)
    ensures |bits| == n
  {
    if n == 0 then [] else MsbBits(v / 2, n - 1) + [v % 2 == 1]
  }

  /** The value of a bit string whose first bit is the most significant. */
  function MsbNat(bits: seq<bool>): nat
  {
    if bits == [] then 0 else 2 * MsbNat(bits[..|bits| - 1]) + if bits[|bits| - 1] then 1 else 0
  }

  lemma {:induction false} MsbNatBound(bits: seq<bool>)
    ensures MsbNat(bits) < Pow2(|bits|)
  {
    if bits != [] {
      MsbNatBound(bits[..|bits| - 1]);
    }
  }

  lemma {:induction false} MsbBitsOfMsbNat(bits: seq<bool>)
    ensures MsbBits(MsbNat(bits), |bits|) == bits
  {
    if bits != [] {
      MsbBitsOfMsbNat(bits[..|bits| - 1]);
      assert MsbNat(bits) / 2 == MsbNat(bits[..|bits| - 1]);
    }
  }

  lemma {:induction false} MsbNatOfMsbBits(v: nat, n: nat)
    requires v < Pow2(n)
    ensures MsbNat(MsbBits(v, n)) == v
  {
    if n > 0 {
      MsbNatOfMsbBits(v / 2, n - 1);
      assert MsbBits(v, n)[..n - 1] == MsbBits(v / 2, n - 1);
    }
  }

  lemma {:induction false} MsbNatAppend(a: seq<bool>, b: seq<bool>)
    ensures MsbNat(a + b) == Shl(MsbNat(a), |b|) + MsbNat(b)
  {
    if b == [] {
      assert a + b == a;
    } else {
      var b' := b[..|b| - 1];
      MsbNatAppend(a, b');
      assert (a + b)[..|a + b| - 1] == a + b';
    }
  }

  lemma FourTimes(v: nat)
    ensures Shl(v, 4) == 16 * v
  {
    assert Shl(v, 2) == 2 * Shl(v, 1) == 4 * Shl(v, 0);
  }

  lemma EightTimes(v: nat)
    ensures Shl(v, 8) == 256 * v
  {
    FourTimes(v);
    FourTimes(16 * v);
    ShlShl(v, 4, 4);
  }

  // ----- bytes -----

  /** The bits of a byte string, each byte's least significant bit first. */
  function ByteBits(bytes: seq<byte>): (bits: seq<bool>)
    ensures |bits| == 8 * |bytes|
  {
    if bytes == [] then [] else NatBits(bytes[0], 8) + ByteBits(bytes[1..])
  }

  lemma {:induction false} ByteBitsAppend(a: seq<byte>, b: seq<byte>)
    ensures ByteBits(a + b) == ByteBits(a) + ByteBits(b)
  {
    hide NatBits;
    if a == [] {
      assert a + b == b;
    } else {
      ByteBitsAppend(a[1..], b);
      assert (a + b)[1..] == a[1..] + b;
    }
  }

  lemma ByteBitsOne(b: byte)
    ensures ByteBits([b]) == NatBits(b, 8)
  {
    hide NatBits;
    assert [b][1..] == [];
    assert ByteBits([b]) == NatBits(b, 8) + ByteBits([]);
  }

  lemma ByteBitsMiddle(a: seq<byte>, m: seq<byte>, z: seq<byte>)
    ensures ByteBits(a + (m + z))[8 * |a|..8 * |a| + 8 * |m|] == ByteBits(m)
  {
    hide ByteBits;
    ByteBitsAppend(a, m + z);
    ByteBitsAppend(m, z);
    SliceMiddle(ByteBits(a), ByteBits(m), ByteBits(z));
  }

  lemma SliceMiddle<T>(a: seq<T>, m: seq<T>, z: seq<T>)
    ensures (a + (m + z))[|a|..|a| + |m|] == m
  {
  }

  // ----- occurrences -----

  /** `bits` occurs in `s` at position `pos`. */
  ghost predicate At(s: seq<bool>, pos: nat, bits: seq<bool>) {
    pos + |bits| <= |s| && s[pos..pos + |bits|] == bits
  }

  lemma AtAppend(s: seq<bool>, pos: nat, a: seq<bool>, b: seq<bool>)
    ensures At(s, pos, a + b) <==> At(s, pos, a) && At(s, pos + |a|, b)
  {
    if At(s, pos, a + b) {
      assert s[pos..pos + |a|] == (a + b)[..|a|] == a;
      assert s[pos + |a|..pos + |a| + |b|] == (a + b)[|a|..] == b;
    }
    if At(s, pos, a) && At(s, pos + |a|, b) {
      assert s[pos..pos + |a| + |b|] == s[pos..pos + |a|] + s[pos + |a|..pos + |a| + |b|];
    }
  }
}
