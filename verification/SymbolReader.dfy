/** Decoding one symbol from the bit buffer, without reading a byte that the symbol's code does not reach. */
module SymbolReader {
  import opened Bits
  import opened CanonicalCode
  import opened Deflate
  import opened DecodeTable
  import opened TableDecoding
  import opened BitReader

  /** Fewer bits agree with the window. */
  lemma PartWindow(stream: seq<byte>, pos: nat, buf: nat, n: nat)
    requires Holds(stream, pos, buf, n) && n < 15
    ensures pos <= 8 * |stream| && Agree(Window(ByteBits(stream), pos), buf, n)
  {
    hide NatBits, ByteBits, Pow2, Window;
    NatBitsTake(buf, n, 15 - n);
    WindowStart(ByteBits(stream), pos, n);
  }

  lemma HeldInside(stream: seq<byte>, pos: nat, buf: nat, n: nat)
    requires Holds(stream, pos, buf, n)
    ensures pos + n <= 8 * |stream| == |ByteBits(stream)|
  {
    hide NatBits, ByteBits;
  }

  lemma WindowStart(bits: seq<bool>, pos: nat, n: nat)
    requires pos + n <= |bits| && n <= 15
    ensures Window(bits, pos)[..n] == bits[pos..pos + n]
  {
    assert bits[pos..][..n] == bits[pos..pos + n];
  }

  /** The tables take this symbol with this many bits from the stream. */
  ghost predicate Right(lens: seq<nat>, bits: seq<bool>, pos: nat, sym: nat, len: nat) {
    TakenAt(lens, bits, pos).Some? && TakenAt(lens, bits, pos).value.sym == sym
        && TakenAt(lens, bits, pos).value.len == len
  }

  lemma TakesHere(lens: seq<nat>, w: seq<bool>, bits: seq<bool>, pos: nat, sym: nat, len: nat)
    requires Feasible(lens) && Takes(lens, w, sym, len) && |w| == 15
    requires pos + len <= |bits| && bits[pos..pos + len] == w[..len]
    requires len == 0 ==> pos + 15 <= |bits| && bits[pos..pos + 15] == w
    ensures Right(lens, bits, pos, sym, len)
  {
    hide TakenAt, Feasible;
    TakenHere(lens, w, bits, pos, TakenAt(lens, w, 0).value);
  }

  lemma FullRight(lens: seq<nat>, stream: seq<byte>, pos: nat, buf: nat, n: nat, sym: nat, len: nat)
    requires Feasible(lens) && Holds(stream, pos, buf, n) && 15 <= n && Takes(lens, NatBits(buf, 15), sym, len)
    requires len <= 15
    ensures Right(lens, ByteBits(stream), pos, sym, len)
  {
    hide Feasible, ByteBits, NatBits, Takes, Right;
    NatBitsTake(buf, 15, n - 15);
    var b := ByteBits(stream);
    assert b[pos..pos + n][..15] == b[pos..pos + 15];
    assert b[pos..pos + 15][..len] == b[pos..pos + len];
    TakesHere(lens, NatBits(buf, 15), b, pos, sym, len);
  }

  lemma PartRight(lens: seq<nat>, stream: seq<byte>, pos: nat, buf: nat, n: nat, sym: nat, len: nat)
    requires Feasible(lens) && Holds(stream, pos, buf, n) && n < 15 && Takes(lens, NatBits(buf, 15), sym, len)
    requires 0 < len <= n
    ensures Right(lens, ByteBits(stream), pos, sym, len)
  {
    hide Feasible, ByteBits, NatBits, Takes, Right;
    NatBitsTake(buf, n, 15 - n);
    var b := ByteBits(stream);
    assert NatBits(buf, 15)[..n][..len] == NatBits(buf, 15)[..len];
    assert b[pos..pos + n][..len] == b[pos..pos + len];
    TakesHere(lens, NatBits(buf, 15), b, pos, sym, len);
  }

  /** No symbol can be taken from the n bits at pos. */
  ghost predicate Beyond(lens: seq<nat>, bits: seq<bool>, pos: nat, n: nat) {
    pos + n <= |bits| && TakenAt(lens, bits[..pos + n], pos).None?
  }

  lemma NotReady(lens: seq<nat>, bits: seq<bool>, pos: nat, n: nat)
    requires pos + n <= |bits| && n <= 15 && TakenAt(lens, Window(bits, pos)[..n], 0).None?
    ensures Beyond(lens, bits, pos, n)
  {
    hide TakenAt, Window;
    WindowStart(bits, pos, n);
    assert bits[..pos + n][pos..] == bits[pos..pos + n];
    NoneFrom(lens, bits[..pos + n], pos);
  }

  lemma NoneFrom(lens: seq<nat>, bits: seq<bool>, pos: nat)
    requires pos <= |bits| && TakenAt(lens, bits[pos..], 0).None?
    ensures TakenAt(lens, bits, pos).None?
  {
    var w := bits[pos..];
    NoneMeans(lens, w);
    hide Going, CodeBits, TakenAt;
    forall s: nat ensures !Codeword(lens, s, bits, pos) {
      if Codeword(lens, s, bits, pos) {
        CodewordFrom(lens, bits, pos, s);
        assert false;
      }
    }
    NoSymbol(lens, bits, pos);
    forall n: nat ensures !Strays(lens, bits, pos, n) {
      if Strays(lens, bits, pos, n) {
        StraysFrom(lens, bits, pos, n);
        assert false;
      }
    }
    TakesNone(lens, bits, pos);
  }

  lemma NoneMeans(lens: seq<nat>, w: seq<bool>)
    requires TakenAt(lens, w, 0).None?
    ensures |w| < 15 && forall s: nat :: !Codeword(lens, s, w, 0)
    ensures forall n: nat :: !Strays(lens, w, 0, n)
  {
    hide Going, Codeword;
  }

  lemma CodewordFrom(lens: seq<nat>, bits: seq<bool>, pos: nat, s: nat)
    requires Codeword(lens, s, bits, pos)
    ensures pos <= |bits| && Codeword(lens, s, bits[pos..], 0)
  {
    var n := |CodeBits(lens, s)|;
    hide CodeBits;
    assert bits[pos..][0..n] == bits[pos..pos + n];
  }

  lemma StraysFrom(lens: seq<nat>, bits: seq<bool>, pos: nat, n: nat)
    requires pos <= |bits| && Strays(lens, bits, pos, n)
    ensures Strays(lens, bits[pos..], 0, n)
  {
    hide Going;
    GoingFrom(lens, bits, pos, n);
    GoingFrom(lens, bits, pos, n - 1);
  }

  lemma GoingFrom(lens: seq<nat>, bits: seq<bool>, pos: nat, n: int)
    requires pos <= |bits|
    ensures Going(lens, bits, pos, n) == Going(lens, bits[pos..], 0, n)
  {
    hide OnTheWay;
    if 0 <= n && pos + n <= |bits| {
      assert bits[pos..][0..n] == bits[pos..pos + n];
    }
  }

  /** A symbol whose code is there has more bits than that. */
  lemma BeyondCode(lens: seq<nat>, bits: seq<bool>, pos: nat, n: nat)
    requires Beyond(lens, bits, pos, n) && TakenAt(lens, bits, pos).Some? && TakenAt(lens, bits, pos).value.clean
    ensures n < TakenAt(lens, bits, pos).value.len
  {
    var s := Symbol(lens, bits, pos).value;
    assert Codeword(lens, s, bits, pos);
    assert |CodeBits(lens, s)| == lens[s];
    if lens[s] <= n {
      CodewordCut(lens, bits, pos, n, s);
    }
  }

  lemma CodewordCut(lens: seq<nat>, bits: seq<bool>, pos: nat, n: nat, s: nat)
    requires Codeword(lens, s, bits, pos) && lens[s] <= n && pos + n <= |bits|
    ensures TakenAt(lens, bits[..pos + n], pos).Some?
  {
    var k := |CodeBits(lens, s)|;
    assert k == lens[s];
    hide CodeBits;
    assert bits[..pos + n][pos..pos + k] == bits[pos..pos + k];
    assert Codeword(lens, s, bits[..pos + n], pos);
  }

  /** At the end of the stream there is none at all. */
  lemma BeyondEnd(lens: seq<nat>, bits: seq<bool>, pos: nat, n: nat)
    requires Beyond(lens, bits, pos, n) && pos + n == |bits|
    ensures TakenAt(lens, bits, pos).None?
  {
    hide TakenAt;
    assert bits[..pos + n] == bits;
  }

  /** Reads bytes until a whole code, or fifteen bits, are there; none that the code does not reach. */
  method Fill(r: BitReader, lookUp: array<i16>, tree: array<i16>, ghost lens: seq<nat>) returns (ok: bool)
    requires r.Valid() && r.numBits < 15 && Feasible(lens) && |lens| <= 288 && TablesFor(lens, lookUp[..], tree[..])
    modifies r`inPos, r`numBits, r`bitBuf
    ensures r.Valid() && r.Pos() == old(r.Pos()) && r.Avail() == old(r.Avail()) && r.numBits < 23
    ensures ok && r.numBits < 15 ==> 0 < TableLength(lookUp[..], tree[..], r.bitBuf) <= r.numBits
    ensures !ok ==> r.inPos == |r.src| && r.numBits < 15 && Beyond(lens, r.Bits(), r.Pos(), r.numBits)
  {
    hide Holds, Feasible, TablesFor, TakenAt, TableLength, Beyond, Window, Agree, ByteBits;
    while true
      invariant r.Valid() && r.Pos() == old(r.Pos()) && r.Avail() == old(r.Avail()) && r.numBits < 15
      decreases 15 - r.numBits
    {
      PartWindow(r.stream, r.Pos(), r.bitBuf, r.numBits);
      ok := Ready(lookUp, tree, r.bitBuf, r.numBits, lens, Window(r.Bits(), r.Pos()));
      if ok {
        return;
      }
      HeldInside(r.stream, r.Pos(), r.bitBuf, r.numBits);
      NotReady(lens, r.Bits(), r.Pos(), r.numBits);
      ok := r.Pull();
      if !ok || r.numBits >= 15 {
        return;
      }
    }
  }

  /** Sees to it that the bit buffer holds a whole code, going on where the last call had to stop. */
  method Prepare(r: BitReader, lookUp: array<i16>, tree: array<i16>, filling: bool, ghost lens: seq<nat>)
    returns (ok: bool)
    requires r.Valid() && r.numBits <= 61 && Feasible(lens) && |lens| <= 288 && TablesFor(lens, lookUp[..], tree[..])
    requires filling ==> r.numBits < 15 && Beyond(lens, r.Bits(), r.Pos(), r.numBits)
    modifies r`inPos, r`numBits, r`bitBuf
    ensures r.Valid() && r.Pos() == old(r.Pos()) && r.Avail() == old(r.Avail()) && r.numBits <= 61
    ensures ok && r.numBits < 15 ==> 0 < TableLength(lookUp[..], tree[..], r.bitBuf) <= r.numBits
    ensures !ok ==> r.inPos == |r.src| && r.numBits < 15 && Beyond(lens, r.Bits(), r.Pos(), r.numBits)
  {
    hide Holds, Feasible, TablesFor, TakenAt, TableLength, Beyond, Window, Agree, ByteBits;
    ok := true;
    if filling {
      ok := r.Pull();
      if ok && r.numBits < 15 {
        ok := Fill(r, lookUp, tree, lens);
      }
    } else if r.numBits < 15 {
      if |r.src| - r.inPos < 2 {
        ok := Fill(r, lookUp, tree, lens);
      } else {
        ok := r.Pull();
        ok := r.Pull();
      }
    }
  }

  /**
   Decodes a symbol. Without enough input nothing is decoded, and then no symbol can be taken from the bits there are;
   otherwise the symbol and the bits are those that the tables take from the whole stream.
   */
  method ReadSymbol(r: BitReader, lookUp: array<i16>, tree: array<i16>, filling: bool, ghost lens: seq<nat>)
    returns (ok: bool, sym: nat, ghost len: nat)
    requires r.Valid() && r.numBits <= 61 && Feasible(lens) && |lens| <= 288 && TablesFor(lens, lookUp[..], tree[..])
    requires filling ==> r.numBits < 15 && Beyond(lens, r.Bits(), r.Pos(), r.numBits)
    modifies r`inPos, r`numBits, r`bitBuf
    ensures r.Valid() && r.numBits <= 61
    ensures ok ==> (r.Pos() == old(r.Pos()) + len && r.Avail() == old(r.Avail()) - len
        && (sym > 0 ==> len > 0 && sym < |lens|) && sym < 288)
    ensures ok ==> Right(lens, r.Bits(), old(r.Pos()), sym, len)
    ensures !ok ==> r.Pos() == old(r.Pos()) && r.Avail() == old(r.Avail())
    ensures !ok ==> r.inPos == |r.src| && r.numBits < 15 && Beyond(lens, r.Bits(), r.Pos(), r.numBits)
  {
    hide Holds, Feasible, TablesFor, TakenAt, TableLength, Beyond, Window, Takes, NatBits, Right, ByteBits;
    sym, len := 0, 0;
    ok := Prepare(r, lookUp, tree, filling, lens);
    if ok {
      sym, len := DecodeHere(r, lookUp, tree, lens);
    }
  }

  /** Decodes a symbol whose code is in the bit buffer. */
  method DecodeHere(r: BitReader, lookUp: array<i16>, tree: array<i16>, ghost lens: seq<nat>)
    returns (sym: nat, len: nat)
    requires r.Valid() && Feasible(lens) && |lens| <= 288 && TablesFor(lens, lookUp[..], tree[..])
    requires r.numBits < 15 ==> 0 < TableLength(lookUp[..], tree[..], r.bitBuf) <= r.numBits
    modifies r`numBits, r`bitBuf
    ensures r.Valid() && r.Pos() == old(r.Pos()) + len && r.Avail() == old(r.Avail()) - len
    ensures r.numBits == old(r.numBits) - len
    ensures sym < 288 && len <= 15 && (sym > 0 ==> len > 0 && sym < |lens|)
    ensures Right(lens, r.Bits(), old(r.Pos()), sym, len)
  {
    hide Holds, Feasible, TablesFor, TakenAt, TableLength, Window, Takes, NatBits, Right, Field, Pow2, ByteBits;
    sym, len := Decode(lookUp, tree, r.bitBuf, lens);
    if r.numBits < 15 {
      PartRight(lens, r.stream, r.Pos(), r.bitBuf, r.numBits, sym, len);
    } else {
      FullRight(lens, r.stream, r.Pos(), r.bitBuf, r.numBits, sym, len);
    }
    var b := r.Take(len);
  }
}
