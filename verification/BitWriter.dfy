/** The compressor's bit buffer and output buffer, and the bytes it may drop when the output buffer is full. */
module BitWriter {
  import opened Bits

  function Min(a: nat, b: nat): nat {
    if a <= b then a else b
  }

  /**
   What the buffers hold when `bits` have been put since the start of the stream: `flushed` bytes were handed on
   before, the next bytes are in the output buffer as far as they fit, and the last bitsIn bits are in the bit buffer.
   */
  ghost predicate Held(bits: seq<bool>, flushed: nat, bytes: seq<byte>, outPos: nat, end: nat, bitBuf: nat,
                       bitsIn: nat)
  {
    && 8 * flushed + bitsIn <= |bits| && (|bits| - bitsIn) % 8 == 0
    && outPos == Min((|bits| - bitsIn) / 8 - flushed, end) && outPos <= |bytes|
    && BytesAt(bits, 8 * flushed, bytes[..outPos])
    && bitBuf < Pow2(bitsIn) && NatBits(bitBuf, bitsIn) == bits[|bits| - bitsIn..]
  }

  /** The bytes are those of the bit string at pos. */
  ghost predicate BytesAt(bits: seq<bool>, pos: nat, bytes: seq<byte>) {
    At(bits, pos, ByteBits(bytes))
  }

  lemma BytesGrow(bits: seq<bool>, more: seq<bool>, pos: nat, bytes: seq<byte>)
    requires BytesAt(bits, pos, bytes)
    ensures BytesAt(bits + more, pos, bytes)
  {
    hide ByteBits;
    var n := |ByteBits(bytes)|;
    assert (bits + more)[pos..pos + n] == bits[pos..pos + n];
  }

  lemma BytesShrink(bits: seq<bool>, n: nat, pos: nat, bytes: seq<byte>, k: nat)
    requires BytesAt(bits, pos, bytes) && k <= |bytes| && pos + 8 * k <= n <= |bits|
    ensures BytesAt(bits[..n], pos, bytes[..k])
  {
    hide ByteBits;
    ByteBitsAppend(bytes[..k], bytes[k..]);
    assert bytes == bytes[..k] + bytes[k..];
    AtAppend(bits, pos, ByteBits(bytes[..k]), ByteBits(bytes[k..]));
    assert bits[..n][pos..pos + 8 * k] == bits[pos..pos + 8 * k];
  }

  /** Putting w above the bits that wait. */
  lemma HeldPut(bits: seq<bool>, flushed: nat, bytes: seq<byte>, outPos: nat, end: nat, bitBuf: nat, bitsIn: nat,
                w: nat, n: nat)
    requires Held(bits, flushed, bytes, outPos, end, bitBuf, bitsIn) && w < Pow2(n)
    ensures Held(bits + NatBits(w, n), flushed, bytes, outPos, end, bitBuf + Shl(w, bitsIn), bitsIn + n)
  {
    hide NatBits, Shl, ByteBits, BytesAt, Pow2;
    NatBitsAppend(bitBuf, bitsIn, w, n);
    BytesGrow(bits, NatBits(w, n), 8 * flushed, bytes[..outPos]);
    TailAppend(bits, NatBits(w, n), bitsIn);
    assert |bits + NatBits(w, n)| - (bitsIn + n) == |bits| - bitsIn;
  }

  lemma TailAppend<T>(s: seq<T>, t: seq<T>, k: nat)
    requires k <= |s|
    ensures (s + t)[|s| - k..] == s[|s| - k..] + t
  {
  }

  /** Moving the low byte out of the bit buffer, into the output buffer if there is room. */
  lemma HeldByte(bits: seq<bool>, flushed: nat, bytes: seq<byte>, outPos: nat, end: nat, bitBuf: nat, bitsIn: nat)
    requires Held(bits, flushed, bytes, outPos, end, bitBuf, bitsIn) && 8 <= bitsIn && end <= |bytes|
    ensures outPos < end ==> Held(bits, flushed, bytes[outPos := bitBuf % 256], outPos + 1, end, bitBuf / 256,
        bitsIn - 8)
    ensures outPos >= end ==> Held(bits, flushed, bytes, outPos, end, bitBuf / 256, bitsIn - 8)
  {
    LowByte(bitBuf);
    NatBitsDrop(bitBuf, 8, bitsIn - 8);
    ShrBound(bitBuf, 8, bitsIn - 8);
    ByteOut(bits, bitBuf, bitsIn);
    if outPos < end {
      AppendByte(bits, 8 * flushed, bytes[..outPos], bitBuf % 256);
      hide NatBits, Shl, Shr, ByteBits, BytesAt;
      assert bytes[outPos := bitBuf % 256][..outPos + 1] == bytes[..outPos] + [bitBuf % 256];
      assert bits[|bits| - bitsIn..][8..] == bits[|bits| - (bitsIn - 8)..];
    } else {
      hide NatBits, Shl, Shr, ByteBits, BytesAt;
      assert bits[|bits| - bitsIn..][8..] == bits[|bits| - (bitsIn - 8)..];
    }
  }

  lemma LowByte(v: nat)
    ensures Shr(v, 8) == v / 256 && Low(v, 8) == v % 256
  {
    SplitShift(v, 8);
    LowBound(v, 8);
    assert Shl(Shr(v, 8), 8) == 256 * Shr(v, 8) by {
      EightTimes(Shr(v, 8));
    }
    Pow2Values();
  }

  lemma ByteOut(bits: seq<bool>, bitBuf: nat, bitsIn: nat)
    requires 8 <= bitsIn <= |bits| && NatBits(bitBuf, bitsIn) == bits[|bits| - bitsIn..]
    ensures At(bits, |bits| - bitsIn, NatBits(bitBuf % 256, 8))
  {
    hide NatBits, Low, Shr, Pow2;
    var p := |bits| - bitsIn;
    LowByte(bitBuf);
    NatBitsLow(bitBuf, 8);
    NatBitsTake(bitBuf, 8, bitsIn - 8);
    SuffixTake(bits, p, 8);
  }

  lemma SuffixTake(bits: seq<bool>, p: nat, n: nat)
    requires p + n <= |bits|
    ensures bits[p..][..n] == bits[p..p + n]
  {
  }

  lemma AppendByte(bits: seq<bool>, pos: nat, bytes: seq<byte>, b: byte)
    requires BytesAt(bits, pos, bytes) && At(bits, pos + 8 * |bytes|, NatBits(b, 8))
    ensures BytesAt(bits, pos, bytes + [b])
  {
    hide NatBits, ByteBits, At;
    ByteBitsAppend(bytes, [b]);
    ByteBitsOne(b);
    AtAppend(bits, pos, ByteBits(bytes), ByteBits([b]));
  }

  /** The registers as they were when `saved` had been put. */
  ghost predicate Snapshot(saved: seq<bool>, flushed: nat, outPos: nat, end: nat, bitBuf: nat, bitsIn: nat) {
    && 8 * flushed <= |saved| && bitsIn == |saved| % 8
    && outPos == Min(|saved| / 8 - flushed, end)
    && bitBuf < Pow2(bitsIn) && NatBits(bitBuf, bitsIn) == saved[|saved| - bitsIn..]
  }

  lemma Saved(bits: seq<bool>, flushed: nat, bytes: seq<byte>, outPos: nat, end: nat, bitBuf: nat, bitsIn: nat)
    requires Held(bits, flushed, bytes, outPos, end, bitBuf, bitsIn) && bitsIn < 8
    ensures Snapshot(bits, flushed, outPos, end, bitBuf, bitsIn)
  {
    hide NatBits, BytesAt, Pow2;
  }

  lemma Restored(saved: seq<bool>, bits: seq<bool>, flushed: nat, bytes: seq<byte>, pos: nat, outPos: nat, end: nat,
                 bitBuf: nat, bitsIn: nat, bitBuf': nat, bitsIn': nat)
    requires Held(bits, flushed, bytes, outPos, end, bitBuf', bitsIn') && bitsIn' < 8
    requires saved <= bits && Snapshot(saved, flushed, pos, end, bitBuf, bitsIn)
    ensures Held(saved, flushed, bytes, pos, end, bitBuf, bitsIn)
  {
    hide NatBits, BytesAt, Pow2;
    BytesShrink(bits, |saved|, 8 * flushed, bytes[..outPos], pos);
    assert bytes[..outPos][..pos] == bytes[..pos];
    assert bits[..|saved|] == saved;
  }

  /** All whole bytes of the stream are in the output buffer and can be handed on. */
  lemma HandedOn(bits: seq<bool>, flushed: nat, bytes: seq<byte>, outPos: nat, end: nat, bitBuf: nat, bitsIn: nat)
    requires Held(bits, flushed, bytes, outPos, end, bitBuf, bitsIn) && bitsIn < 8 && |bits| / 8 - flushed <= end
    ensures Held(bits, flushed + outPos, bytes, 0, end, bitBuf, bitsIn)
    ensures BytesAt(bits, 8 * flushed, bytes[..outPos])
  {
    hide NatBits, Pow2;
    assert bytes[..0] == [];
  }

  lemma HeldStarts(bytes: seq<byte>, end: nat)
    ensures Held([], 0, bytes, 0, end, 0, 0)
  {
    assert bytes[..0] == [];
  }

  class BitWriter {
    const out: array<byte>
    const end: nat
    var outPos: nat
    var bitBuf: nat
    var bitsIn: nat
    ghost var bits: seq<bool>
    ghost var flushed: nat

    ghost predicate Valid()
      reads this, out
    {
      && end <= out.Length && bitsIn < 8
      && Held(bits, flushed, out[..], outPos, end, bitBuf, bitsIn)
    }

    /** No byte has been dropped. */
    ghost predicate Intact()
      reads this
    {
      |bits| / 8 - flushed <= end
    }

    constructor (size: nat, end: nat)
      requires end <= size
      ensures Valid() && Intact() && bits == [] && flushed == 0 && fresh(out) && this.end == end
    {
      out := new byte[size](_ => 0);
      this.end := end;
      outPos, bitBuf, bitsIn, bits, flushed := 0, 0, 0, [], 0;
      new;
      HeldStarts(out[..], end);
      hide Held;
    }

    /** Appends n bits to the stream. With n at most 16 the bit buffer never needs more than 23 bits. */
    method PutBits(w: nat, n: nat)
      requires Valid() && n <= 16 && w < Pow2(n)
      modifies this, out
      ensures Valid() && bits == old(bits) + NatBits(w, n) && flushed == old(flushed)
    {
      hide Held, NatBits, Shl, Pow2;
      HeldPut(bits, flushed, out[..], outPos, end, bitBuf, bitsIn, w, n);
      bitBuf := bitBuf + Shl(w, bitsIn);
      bitsIn := bitsIn + n;
      bits := bits + NatBits(w, n);
      while bitsIn >= 8
        invariant bits == old(bits) + NatBits(w, n) && flushed == old(flushed)
        invariant Held(bits, flushed, out[..], outPos, end, bitBuf, bitsIn)
      {
        DrainByte();
      }
    }

    method DrainByte()
      requires end <= out.Length && bitsIn >= 8 && Held(bits, flushed, out[..], outPos, end, bitBuf, bitsIn)
      modifies `outPos, `bitBuf, `bitsIn, out
      ensures bitsIn == old(bitsIn) - 8 && Held(bits, flushed, out[..], outPos, end, bitBuf, bitsIn)
    {
      HeldByte(bits, flushed, out[..], outPos, end, bitBuf, bitsIn);
      hide Held;
      if outPos < end {
        ghost var before := out[..];
        var b: byte := bitBuf % 256;
        out[outPos] := b;
        assert out[..] == before[outPos := b];
        outPos := outPos + 1;
      }
      bitBuf := bitBuf / 256;
      bitsIn := bitsIn - 8;
    }

    /** Forgets what was put since the registers were saved. */
    method Rewind(pos: nat, buf: nat, count: nat, ghost saved: seq<bool>)
      requires Valid() && saved <= bits && Snapshot(saved, flushed, pos, end, buf, count)
      modifies this
      ensures Valid() && bits == saved && flushed == old(flushed)
    {
      Restored(saved, bits, flushed, out[..], pos, outPos, end, buf, count, bitBuf, bitsIn);
      hide Held, Snapshot;
      outPos, bitBuf, bitsIn, bits := pos, buf, count, saved;
      SnapshotSmall(saved, flushed, pos, end, buf, count);
    }

    /** Empties the output buffer, whose bytes have been handed on. */
    method Restart()
      requires Valid() && Intact()
      modifies `outPos, `flushed
      ensures Valid() && Intact() && bits == old(bits) && flushed == old(flushed) + old(outPos) && outPos == 0
      ensures BytesAt(bits, 8 * old(flushed), out[..old(outPos)])
    {
      HandedOn(bits, flushed, out[..], outPos, end, bitBuf, bitsIn);
      WholeBytes();
      hide Held, BytesAt;
      flushed, outPos := flushed + outPos, 0;
    }

    /** Few enough bits leave room in the output buffer. */
    lemma HasRoom()
      requires Valid()
      ensures |bits| / 8 < flushed + end ==> outPos < end
    {
      Saved(bits, flushed, out[..], outPos, end, bitBuf, bitsIn);
    }

    /** The output buffer is full only if the bytes since the last flush fill it. */
    lemma FillsUp()
      requires Valid()
      ensures end <= outPos ==> Overflows(bits, flushed, end)
    {
      HasRoom();
    }

    /** A byte was dropped only if the output buffer is full. */
    lemma WholeBytes()
      requires Valid()
      ensures bitsIn == |bits| % 8 && 8 * flushed <= |bits|
      ensures Intact() ==> outPos == |bits| / 8 - flushed
      ensures outPos < end ==> Intact()
      ensures Snapshot(bits, flushed, outPos, end, bitBuf, bitsIn)
    {
      Saved(bits, flushed, out[..], outPos, end, bitBuf, bitsIn);
    }
  }

  /** As many bytes as the output buffer takes, or more, have come since the last flush. */
  ghost predicate Overflows(bits: seq<bool>, flushed: nat, end: nat) {
    flushed + end <= |bits| / 8
  }

  lemma SnapshotSmall(saved: seq<bool>, flushed: nat, outPos: nat, end: nat, bitBuf: nat, bitsIn: nat)
    requires Snapshot(saved, flushed, outPos, end, bitBuf, bitsIn)
    ensures bitsIn < 8
  {
  }
}
