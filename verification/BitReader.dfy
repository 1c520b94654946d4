/** The decoder's bit buffer, filled from pieces of the stream. */
module BitReader {
  import opened Bits
  import opened Deflate

  /** The bit buffer holds the n bits of the stream from position pos on. */
  ghost predicate Holds(stream: seq<byte>, pos: nat, buf: nat, n: nat) {
    buf < Pow2(n) && At(ByteBits(stream), pos, NatBits(buf, n))
  }

  lemma ByteBitsAt(stream: seq<byte>, k: nat)
    requires k < |stream|
    ensures At(ByteBits(stream), 8 * k, NatBits(stream[k], 8))
  {
    hide NatBits, ByteBits;
    assert stream == stream[..k] + ([stream[k]] + stream[k + 1..]);
    ByteBitsMiddle(stream[..k], [stream[k]], stream[k + 1..]);
    ByteBitsOne(stream[k]);
  }

  /** A further byte goes above the bits that are there. */
  lemma HoldsMore(stream: seq<byte>, pos: nat, buf: nat, n: nat, k: nat)
    requires Holds(stream, pos, buf, n) && pos + n == 8 * k && k < |stream|
    ensures Holds(stream, pos, buf + Shl(stream[k], n), n + 8)
  {
    hide NatBits, ByteBits, Shl, Pow2, At;
    ByteBitsAt(stream, k);
    AtAppend(ByteBits(stream), pos, NatBits(buf, n), NatBits(stream[k], 8));
    ByteSmall(stream[k]);
    NatBitsAppend(buf, n, stream[k], 8);
  }

  lemma ByteSmall(b: byte)
    ensures b < Pow2(8)
  {
    Pow2Values();
  }

  /** Taking the m low bits. */
  lemma HoldsTake(stream: seq<byte>, pos: nat, buf: nat, n: nat, m: nat)
    requires Holds(stream, pos, buf, n) && m <= n
    ensures Holds(stream, pos + m, Shr(buf, m), n - m)
    ensures Field(ByteBits(stream), pos, m) == Some(Low(buf, m)) && Low(buf, m) < Pow2(m)
    ensures Holds(stream, pos, Low(buf, m), m)
  {
    hide NatBits, ByteBits, Shr, Low, Pow2, At, Field;
    NatBitsTake(buf, m, n - m);
    NatBitsDrop(buf, m, n - m);
    ShrBound(buf, m, n - m);
    LowBound(buf, m);
    NatBitsLow(buf, m);
    var b := NatBits(buf, n);
    assert b == b[..m] + b[m..];
    AtAppend(ByteBits(stream), pos, b[..m], b[m..]);
    FieldHere(ByteBits(stream), pos, buf, m);
  }

  lemma FieldHere(bits: seq<bool>, pos: nat, v: nat, n: nat)
    requires At(bits, pos, NatBits(v, n))
    ensures Field(bits, pos, n) == Some(Low(v, n))
  {
    hide NatBits, BitsNat, Low;
    BitsNatOfNatBits(v, n);
  }

  lemma HoldsNothing(stream: seq<byte>, pos: nat)
    requires pos <= 8 * |stream|
    ensures Holds(stream, pos, 0, 0)
  {
  }

  class BitReader {
    var src: seq<byte>
    var inPos: nat
    var numBits: nat
    var bitBuf: nat
    ghost const stream: seq<byte>
    ghost var taken: nat

    /** The stream's bits, and how many of them have been decoded: 8 * (bytes taken) less the bits that wait. */
    ghost function Bits(): (s: seq<bool>)
      ensures |s| == 8 * |stream|
    {
      ByteBits(stream)
    }

    ghost function Pos(): int
      reads this
    {
      8 * (taken + inPos) - numBits
    }

    ghost predicate Valid()
      reads this
    {
      && taken + |src| <= |stream| && src == stream[taken..taken + |src|] && inPos <= |src|
      && 0 <= Pos() && numBits <= 64 && Holds(stream, Pos(), bitBuf, numBits)
    }

    /** The bits that can be had without more input. */
    function Avail(): int
      reads this
    {
      8 * (|src| - inPos) + numBits
    }

    constructor (ghost stream: seq<byte>)
      ensures Valid() && Idle() && this.stream == stream && taken == 0 && numBits == 0
    {
      this.stream := stream;
      src, inPos, numBits, bitBuf, taken := [], 0, 0, 0, 0;
      new;
      HoldsNothing(stream, 0);
    }

    /** Between calls there is no input. */
    ghost predicate Idle()
      reads this
    {
      src == [] && inPos == 0
    }

    /** The piece is what follows in the stream. */
    ghost predicate Follows(piece: seq<byte>)
      reads `taken
    {
      taken + |piece| <= |stream| && piece == stream[taken..taken + |piece|]
    }

    /** The next piece of the stream. */
    method Feed(piece: seq<byte>)
      requires Valid() && Idle() && Follows(piece)
      modifies `src
      ensures Valid() && Pos() == old(Pos()) && src == piece && inPos == 0
    {
      hide Holds;
      src := piece;
    }

    /** Lets go of the piece; what was not read of it comes again. */
    method Settle()
      requires Valid()
      modifies this
      ensures Valid() && Pos() == old(Pos()) && numBits == old(numBits) && Idle() && taken == old(taken + inPos)
    {
      hide Holds;
      taken := taken + inPos;
      src, inPos := [], 0;
    }

    /** Adds a byte of input to the bit buffer, if there is one. */
    method Pull() returns (ok: bool)
      requires Valid() && numBits <= 56
      modifies `inPos, `numBits, `bitBuf
      ensures Valid() && Pos() == old(Pos()) && Avail() == old(Avail()) && ok == (old(inPos) < |src|)
      ensures ok ==> inPos == old(inPos) + 1 && numBits == old(numBits) + 8
      ensures !ok ==> inPos == old(inPos) && numBits == old(numBits) && bitBuf == old(bitBuf)
    {
      hide Holds, Shl;
      ok := inPos < |src|;
      if ok {
        HoldsMore(stream, Pos(), bitBuf, numBits, taken + inPos);
        assert src[inPos] == stream[taken + inPos];
        bitBuf := bitBuf + Shl(src[inPos], numBits);
        inPos, numBits := inPos + 1, numBits + 8;
      }
    }

    /** Fills the bit buffer up to n bits. */
    method Need(n: nat) returns (ok: bool)
      requires Valid() && n <= 56
      modifies `inPos, `numBits, `bitBuf
      ensures Valid() && Pos() == old(Pos()) && Avail() == old(Avail())
      ensures ok ==> numBits >= n
      ensures !ok ==> numBits < n && inPos == |src|
      ensures numBits < n + 8 || numBits == old(numBits)
    {
      hide Holds;
      while numBits < n
        invariant Valid() && Pos() == old(Pos()) && Avail() == old(Avail())
        invariant numBits < n + 8 || numBits == old(numBits)
        decreases n - numBits
      {
        ok := Pull();
        if !ok {
          return;
        }
      }
      ok := true;
    }

    /** Takes n bits that are there. */
    method Take(n: nat) returns (b: nat)
      requires Valid() && n <= numBits
      modifies `numBits, `bitBuf
      ensures Valid() && Pos() == old(Pos()) + n && Avail() == old(Avail()) - n && numBits == old(numBits) - n
      ensures Field(Bits(), old(Pos()), n) == Some(b) && b < Pow2(n)
    {
      hide Holds, Low, Shr, Field, ByteBits;
      HoldsTake(stream, Pos(), bitBuf, numBits, n);
      b := Low(bitBuf, n);
      bitBuf := Shr(bitBuf, n);
      numBits := numBits - n;
    }

    /** Gets n bits, or reports that there is not enough input. */
    method Get(n: nat) returns (ok: bool, b: nat)
      requires Valid() && n <= 56
      modifies `inPos, `numBits, `bitBuf
      ensures Valid()
      ensures ok ==> (Pos() == old(Pos()) + n && Avail() == old(Avail()) - n && Field(Bits(), old(Pos()), n) == Some(b)
          && b < Pow2(n))
      ensures ok ==> numBits < 8 || numBits <= old(numBits)
      ensures !ok ==> Pos() == old(Pos()) && Avail() == old(Avail()) && inPos == |src| && numBits < n
    {
      hide Holds, Field, ByteBits, Pow2;
      b := 0;
      ok := Need(n);
      if ok {
        b := Take(n);
      }
    }

    /** Gets a byte past the bit buffer, which is empty. */
    method GetByte() returns (ok: bool, c: byte)
      requires Valid() && numBits == 0
      modifies `inPos
      ensures Valid() && numBits == 0
      ensures ok == (old(inPos) < |src|) && (ok ==> inPos == old(inPos) + 1)
      ensures ok ==> (Pos() == old(Pos()) + 8 && Avail() == old(Avail()) - 8
          && Field(Bits(), old(Pos()), 8) == Some(c as nat))
      ensures !ok ==> Pos() == old(Pos()) && Avail() == old(Avail()) && inPos == |src|
    {
      hide Holds, Field, ByteBits;
      ok := inPos < |src|;
      c := 0;
      if ok {
        c := src[inPos];
        assert c == stream[taken + inPos];
        ByteField(stream, taken + inPos);
        inPos := inPos + 1;
        EmptyBuffer(stream, Pos(), bitBuf, old(Pos()));
      }
    }

    /** Gives back whole bytes that were read ahead in this piece. */
    method PutBack()
      requires Valid()
      modifies `inPos, `numBits, `bitBuf
      ensures Valid() && Pos() == old(Pos()) && Avail() == old(Avail()) && numBits <= old(numBits)
      ensures inPos == 0 || numBits < 8
    {
      ghost var n := numBits;
      hide Holds, Low;
      while inPos > 0 && numBits >= 8
        invariant 0 <= inPos <= |src| && 0 <= numBits <= n && bitBuf == old(bitBuf) && Pos() == old(Pos())
        invariant Avail() == old(Avail())
      {
        inPos := inPos - 1;
        numBits := numBits - 8;
      }
      HoldsTake(stream, Pos(), bitBuf, n, numBits);
      bitBuf := Low(bitBuf, numBits);
    }
  }

  lemma ByteField(stream: seq<byte>, k: nat)
    requires k < |stream|
    ensures Field(ByteBits(stream), 8 * k, 8) == Some(stream[k] as nat)
  {
    hide NatBits, ByteBits, Field, Pow2;
    ByteBitsAt(stream, k);
    FieldHere(ByteBits(stream), 8 * k, stream[k], 8);
    ByteSmall(stream[k]);
    LowSmall(stream[k], 8);
  }

  lemma EmptyBuffer(stream: seq<byte>, pos: nat, buf: nat, before: nat)
    requires Holds(stream, before, buf, 0) && pos <= 8 * |stream|
    ensures Holds(stream, pos, buf, 0)
  {
  }
}
