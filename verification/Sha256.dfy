/** SHA-256 (FIPS 180-4 section 6.2) and its streaming context. */
module Sha256 {
  import opened BlockStream
  import opened Division
  import opened Words

  type State = s: seq<bv32> | |s| == 8 witness [0, 0, 0, 0, 0, 0, 0, 0]

  const INITIAL: State := [0x6a09e667, 0xbb67ae85, 0x3c6ef372, 0xa54ff53a, 0x510e527f, 0x9b05688c, 0x1f83d9ab,
      0x5be0cd19]

  // ----- the standard -----

  function Ch(x: bv32, y: bv32, z: bv32): bv32 {
    (x & y) ^ (!x & z)
  }

  function Maj(x: bv32, y: bv32, z: bv32): bv32 {
    (x & y) ^ (x & z) ^ (y & z)
  }

  function BigSigma0(x: bv32): bv32 {
    Ror(x, 2) ^ Ror(x, 13) ^ Ror(x, 22)
  }

  function BigSigma1(x: bv32): bv32 {
    Ror(x, 6) ^ Ror(x, 11) ^ Ror(x, 25)
  }

  function Sigma0(x: bv32): bv32 {
    Ror(x, 7) ^ Ror(x, 18) ^ (x >> 3)
  }

  function Sigma1(x: bv32): bv32 {
    Ror(x, 17) ^ Ror(x, 19) ^ (x >> 10)
  }

  const CONSTANTS1: seq<bv32> := [
    0x428a2f98, 0x71374491, 0xb5c0fbcf, 0xe9b5dba5, 0x3956c25b, 0x59f111f1, 0x923f82a4, 0xab1c5ed5,
    0xd807aa98, 0x12835b01, 0x243185be, 0x550c7dc3, 0x72be5d74, 0x80deb1fe, 0x9bdc06a7, 0xc19bf174]
  const CONSTANTS2: seq<bv32> := [
    0xe49b69c1, 0xefbe4786, 0x0fc19dc6, 0x240ca1cc, 0x2de92c6f, 0x4a7484aa, 0x5cb0a9dc, 0x76f988da,
    0x983e5152, 0xa831c66d, 0xb00327c8, 0xbf597fc7, 0xc6e00bf3, 0xd5a79147, 0x06ca6351, 0x14292967]
  const CONSTANTS3: seq<bv32> := [
    0x27b70a85, 0x2e1b2138, 0x4d2c6dfc, 0x53380d13, 0x650a7354, 0x766a0abb, 0x81c2c92e, 0x92722c85,
    0xa2bfe8a1, 0xa81a664b, 0xc24b8b70, 0xc76c51a3, 0xd192e819, 0xd6990624, 0xf40e3585, 0x106aa070]
  const CONSTANTS4: seq<bv32> := [
    0x19a4c116, 0x1e376c08, 0x2748774c, 0x34b0bcb5, 0x391c0cb3, 0x4ed8aa4a, 0x5b9cca4f, 0x682e6ff3,
    0x748f82ee, 0x78a5636f, 0x84c87814, 0x8cc70208, 0x90befffa, 0xa4506ceb, 0xbef9a3f7, 0xc67178f2]

  function K(t: nat): bv32
    requires t < 64
  {
    if t < 16 then CONSTANTS1[t] else if t < 32 then CONSTANTS2[t - 16] else if t < 48 then CONSTANTS3[t - 32]
        else CONSTANTS4[t - 48]
  }

  function Plus(x: bv32, y: bv32): bv32 {
    x + y
  }

  function Four(p: bv32, q: bv32, r: bv32, s: bv32): bv32 {
    p + q + r + s
  }

  function Five(h: bv32, p: bv32, q: bv32, k: bv32, w: bv32): bv32 {
    h + p + q + k + w
  }

  /** The message schedule. */
  function W(m: Chunk, t: nat): bv32 {
    if t < 16 then BigEndian(m[4 * t], m[4 * t + 1], m[4 * t + 2], m[4 * t + 3])
    else Four(Sigma1(W(m, t - 2)), W(m, t - 7), Sigma0(W(m, t - 15)), W(m, t - 16))
  }

  datatype Registers = Registers(a: bv32, b: bv32, c: bv32, d: bv32, e: bv32, f: bv32, g: bv32, h: bv32)

  function T1(r: Registers, w: bv32, t: nat): bv32
    requires t < 64
  {
    Five(r.h, BigSigma1(r.e), Ch(r.e, r.f, r.g), K(t), w)
  }

  function T2(r: Registers): bv32 {
    Plus(BigSigma0(r.a), Maj(r.a, r.b, r.c))
  }

  function Round(r: Registers, w: bv32, t: nat): Registers
    requires t < 64
  {
    Registers(Plus(T1(r, w, t), T2(r)), r.a, r.b, r.c, Plus(r.d, T1(r, w, t)), r.e, r.f, r.g)
  }

  function Rounds(s: State, m: Chunk, t: nat): Registers
    requires t <= 64
  {
    if t == 0 then Registers(s[0], s[1], s[2], s[3], s[4], s[5], s[6], s[7])
        else Round(Rounds(s, m, t - 1), W(m, t - 1), t - 1)
  }

  function Sum(s: State, r: Registers): State {
    [Plus(s[0], r.a), Plus(s[1], r.b), Plus(s[2], r.c), Plus(s[3], r.d),
     Plus(s[4], r.e), Plus(s[5], r.f), Plus(s[6], r.g), Plus(s[7], r.h)]
  }

  function Compress(s: State, m: Chunk): State {
    Sum(s, Rounds(s, m, 64))
  }

  /** The digest of a whole message. */
  function Digest(m: seq<bv8>): (d: seq<bv8>)
    ensures |d| == 32
  {
    BigAll(Fold(Compress, INITIAL, m + Padding(|m|) + BigLength(BitLength(|m|))))
  }

  // ----- the transformation -----

  lemma WFirst(m: Chunk, t: nat)
    requires t < 16
    ensures W(m, t) == BigEndian(m[4 * t], m[4 * t + 1], m[4 * t + 2], m[4 * t + 3])
  {
  }

  lemma WLater(m: Chunk, t: nat)
    requires 16 <= t
    ensures W(m, t) == Four(Sigma1(W(m, t - 2)), W(m, t - 7), Sigma0(W(m, t - 15)), W(m, t - 16))
  {
    hide Four, Sigma0, Sigma1;
  }

  /** The schedule of a block, written out. */
  method Schedule(data: Chunk) returns (m: array<bv32>)
    ensures fresh(m) && m.Length == 64 && forall t :: 0 <= t < 64 ==> m[t] == W(data, t)
  {
    hide *;
    m := new bv32[64](_ => 0);
    var i, j: nat := 0, 0;
    while i < 16
      invariant i <= 16 && j == 4 * i && forall t :: 0 <= t < i ==> m[t] == W(data, t)
    {
      WFirst(data, i);
      m[i] := BigEndian(data[j], data[j + 1], data[j + 2], data[j + 3]);
      i, j := i + 1, j + 4;
    }
    while i < 64
      invariant 16 <= i <= 64 && forall t :: 0 <= t < i ==> m[t] == W(data, t)
    {
      WLater(data, i);
      m[i] := Four(Sigma1(m[i - 2]), m[i - 7], Sigma0(m[i - 15]), m[i - 16]);
      i := i + 1;
    }
  }

  lemma RoundsNext(s: State, m: Chunk, t: nat)
    requires t < 64
    ensures var r := Rounds(s, m, t);
      var t1 := Five(r.h, BigSigma1(r.e), Ch(r.e, r.f, r.g), K(t), W(m, t));
      Rounds(s, m, t + 1)
      == Registers(Plus(t1, Plus(BigSigma0(r.a), Maj(r.a, r.b, r.c))), r.a, r.b, r.c, Plus(r.d, t1), r.e, r.f, r.g)
  {
    hide W, Plus, Five, BigSigma0, BigSigma1, Ch, Maj, K;
  }

  lemma NoRounds(s: State, m: Chunk)
    ensures Rounds(s, m, 0) == Registers(s[0], s[1], s[2], s[3], s[4], s[5], s[6], s[7])
  {
  }

  /** Mixes a block into the state. */
  method Transform(state: array<bv32>, data: Chunk)
    requires state.Length == 8
    modifies state
    ensures state[..] == Compress(old(state[..]), data)
  {
    hide *;
    ghost var s := state[..];
    var m := Schedule(data);
    var a, b, c, d := state[0], state[1], state[2], state[3];
    var e, f, g, h := state[4], state[5], state[6], state[7];
    NoRounds(s, data);
    for i := 0 to 64
      invariant Registers(a, b, c, d, e, f, g, h) == Rounds(s, data, i) && state[..] == s
      invariant forall t :: 0 <= t < 64 ==> m[t] == W(data, t)
    {
      RoundsNext(s, data, i);
      var t1 := Five(h, BigSigma1(e), Ch(e, f, g), K(i), m[i]);
      var t2 := Plus(BigSigma0(a), Maj(a, b, c));
      h := g;
      g := f;
      f := e;
      e := Plus(d, t1);
      d := c;
      c := b;
      b := a;
      a := Plus(t1, t2);
    }
    AddBack(state, Registers(a, b, c, d, e, f, g, h));
    CompressIs(s, data);
  }

  lemma CompressIs(s: State, m: Chunk)
    ensures Compress(s, m) == Sum(s, Rounds(s, m, 64))
  {
    hide Sum, Rounds;
  }

  /** Adds the registers to the state. */
  method AddBack(state: array<bv32>, r: Registers)
    requires state.Length == 8
    modifies state
    ensures state[..] == Sum(old(state[..]), r)
  {
    hide Plus;
    ghost var s := state[..];
    AddFour(state, 0, r.a, r.b, r.c, r.d);
    AddFour(state, 4, r.e, r.f, r.g, r.h);
    assert state[..] == Sum(s, r);
  }

  method AddFour(state: array<bv32>, i: nat, p: bv32, q: bv32, r: bv32, s: bv32)
    requires i + 4 <= state.Length
    modifies state
    ensures state[i] == Plus(old(state[i]), p) && state[i + 1] == Plus(old(state[i + 1]), q)
    ensures state[i + 2] == Plus(old(state[i + 2]), r) && state[i + 3] == Plus(old(state[i + 3]), s)
    ensures forall k :: 0 <= k < state.Length && (k < i || i + 4 <= k) ==> state[k] == old(state[k])
  {
    hide Plus;
    state[i] := Plus(state[i], p);
    state[i + 1] := Plus(state[i + 1], q);
    state[i + 2] := Plus(state[i + 2], r);
    state[i + 3] := Plus(state[i + 3], s);
  }

  // ----- streaming -----

  class Context {
    const state: array<bv32>
    const data: array<bv8>
    var datalen: nat
    var bitlen: nat
    ghost var msg: seq<bv8>

    constructor ()
      ensures Valid() && msg == [] && fresh(state) && fresh(data)
    {
      state := new bv32[8] [0x6a09e667, 0xbb67ae85, 0x3c6ef372, 0xa54ff53a, 0x510e527f, 0x9b05688c, 0x1f83d9ab,
          0x5be0cd19];
      data := new bv8[64](_ => 0);
      datalen, bitlen, msg := 0, 0, [];
      new;
      Nothing();
    }

    lemma Nothing()
      requires state.Length == 8 && data.Length == 64 && datalen == 0 == bitlen && msg == [] && state[..] == INITIAL
      ensures Valid()
    {
      FoldShort<State>(Compress, INITIAL, []);
      RestShort([]);
      NoBlocks();
      hide *;
      assert data[..0] == [];
      Closed();
    }

    /** The state has taken in all whole blocks of the message so far, and the buffer holds the bytes after them. */
    ghost predicate Valid()
      reads this, state, data
    {
      && state.Length == 8 && data.Length == 64 && datalen < 64 && bitlen == BlockBits(|msg|)
      && state[..] == Fold<State>(Compress, INITIAL, msg) && data[..datalen] == Rest(msg)
    }

    lemma Opened()
      requires Valid()
      ensures state.Length == 8 && data.Length == 64 && datalen < 64 && bitlen == BlockBits(|msg|)
      ensures state[..] == Fold<State>(Compress, INITIAL, msg) && data[..datalen] == Rest(msg)
    {
      hide Compress, BlockBits;
    }

    lemma Closed()
      requires state.Length == 8 && data.Length == 64 && datalen < 64 && bitlen == BlockBits(|msg|)
      requires state[..] == Fold<State>(Compress, INITIAL, msg) && data[..datalen] == Rest(msg)
      ensures Valid()
    {
      hide Compress, BlockBits;
    }

    /** Adds one byte; a full buffer is mixed in. */
    method Add(c: bv8)
      requires Valid()
      modifies this, state, data
      ensures Valid() && msg == old(msg) + [c]
    {
      hide *;
      Opened();
      ghost var m, s, r := msg, state[..], Rest(msg);
      FoldMore<State>(Compress, INITIAL, m, [c]);
      data[datalen] := c;
      datalen := datalen + 1;
      assert data[..datalen] == r + [c];
      BitsNext(m, c, r);
      if datalen == 64 {
        assert data[..64] == data[..];
        ghost var b: Chunk := data[..];
        OneBlock(s, b);
        Transform(state, data[..]);
        bitlen := (bitlen + 512) % 0x1_0000_0000_0000_0000;
        datalen := 0;
        assert data[..0] == [];
      } else {
        FoldShort<State>(Compress, s, r + [c]);
        RestShort(r + [c]);
      }
      msg := m + [c];
      Closed();
    }

    /** Adds a piece to the message. The loop's counter has 32 bits. */
    method Update(piece: seq<bv8>)
      requires Valid() && |piece| < 0x1_0000_0000
      modifies this, state, data
      ensures Valid() && msg == old(msg) + piece
    {
      hide *;
      for i := 0 to |piece|
        invariant Valid() && msg == old(msg) + piece[..i]
      {
        assert old(msg) + piece[..i] + [piece[i]] == old(msg) + piece[..i + 1];
        Add(piece[i]);
      }
      assert piece[..|piece|] == piece;
    }

    /** Zeros from i up to the given end. */
    method Fill(i: nat, end: nat)
      requires data.Length == 64 && i <= end <= 64
      modifies data
      ensures data[..end] == old(data[..i]) + Zeros(end - i)
    {
      var k := i;
      while k < end
        invariant i <= k <= end && data[..k] == old(data[..i]) + Zeros(k - i)
      {
        data[k] := 0;
        k := k + 1;
      }
    }

    /** Pads the message and gives the digest. */
    method Final() returns (hash: seq<bv8>)
      requires Valid()
      modifies this, state, data
      ensures hash == Digest(old(msg))
    {
      hide *;
      Opened();
      ghost var m, r, s := msg, Rest(msg), state[..];
      var i := datalen;
      RestLength(m);
      assert |r| == i;
      data[i] := 0x80;
      assert data[..i + 1] == r + [0x80];
      FinalBits(|m|);
      var bits := (bitlen + datalen * 8) % 0x1_0000_0000_0000_0000;
      if datalen < 56 {
        Fill(i + 1, 56);
        OneLast(m, r, s, data[..56]);
      } else {
        Fill(i + 1, 64);
        assert data[..64] == data[..];
        TwoLast(m, r, s, data[..]);
        Transform(state, data[..]);
        Fill(0, 56);
        assert data[..0] + Zeros(56) == Zeros(56);
      }
      bitlen := bits;
      hash := LastBlock(m);
    }

    /** Mixes in the last block, which lacks only the length. */
    method LastBlock(ghost m: seq<bv8>) returns (hash: seq<bv8>)
      requires state.Length == 8 && data.Length == 64 && bitlen == BitLength(|m|)
      requires AlmostDone(m, state[..], data[..56])
      modifies state, data
      ensures hash == Digest(m)
    {
      hide *;
      ghost var s, tail := state[..], data[..56];
      SetLength();
      assert data[..] == tail + data[56..];
      AlmostMeans(m, s, tail);
      Transform(state, data[..]);
      hash := BigAll(state[..]);
    }

    /** The length goes into the last eight bytes. */
    method SetLength()
      requires data.Length == 64
      modifies data
      ensures data[..56] == old(data[..56]) && data[56..] == BigLength(bitlen)
    {
      hide *;
      ghost var l := BigLength(bitlen);
      LengthAt(bitlen);
      for k := 0 to 8
        invariant forall j :: 0 <= j < 56 ==> data[j] == old(data[j])
        invariant forall j :: 64 - k <= j < 64 ==> data[j] == l[j - 56]
      {
        data[63 - k] := ByteAt(bitlen, k);
        assert data[63 - k] == l[7 - k];
      }
      assert data[56..] == l;
    }
  }

  lemma LengthAt(n: nat)
    ensures forall k :: 0 <= k < 8 ==> BigLength(n)[7 - k] == ByteAt(n, k)
  {
    hide ByteAt;
  }

  /** The bits of all whole blocks of n bytes. */
  function BlockBits(n: nat): nat {
    512 * (n / 64) % 0x1_0000_0000_0000_0000
  }

  lemma NoBlocks()
    ensures BlockBits(0) == 0 && |INITIAL| == 8
  {
  }

  lemma RestLength(m: seq<bv8>)
    ensures |Rest(m)| == |m| % 64
  {
  }

  lemma BitsNext(m: seq<bv8>, c: bv8, r: seq<bv8>)
    requires r == Rest(m)
    ensures |r + [c]| == 64 ==> BlockBits(|m + [c]|) == (BlockBits(|m|) + 512) % 0x1_0000_0000_0000_0000
    ensures |r + [c]| < 64 ==> BlockBits(|m + [c]|) == BlockBits(|m|)
  {
    hide BlockBits, Rest;
    RestLength(m);
    NextBits(|m|);
  }

  lemma NextBits(n: nat)
    ensures n % 64 == 63 ==> BlockBits(n + 1) == (BlockBits(n) + 512) % 0x1_0000_0000_0000_0000
    ensures n % 64 < 63 ==> BlockBits(n + 1) == BlockBits(n)
  {
    var k, v := n / 64, 512 * (n / 64);
    if n % 64 == 63 {
      assert n + 1 == 64 * (k + 1);
      ModSame(v + 512, v % 0x1_0000_0000_0000_0000 + 512, v / 0x1_0000_0000_0000_0000, 0x1_0000_0000_0000_0000);
    } else {
      assert n + 1 == 64 * k + (n % 64 + 1);
    }
  }

  lemma OneBlock(s: State, b: Chunk)
    ensures Fold<State>(Compress, s, b) == Compress(s, b) && Rest(b) == []
  {
    hide Compress;
    assert b + [] == b;
    FoldBlock<State>(Compress, s, b, []);
    FoldShort<State>(Compress, Compress(s, b), []);
  }

  /** Only the block with these 56 bytes and the length is still to be mixed in. */
  ghost predicate AlmostDone(m: seq<bv8>, s: State, tail: seq<bv8>) {
    |tail| == 56 && Digest(m) == BigAll(Compress(s, Last(tail, |m|)))
  }

  /** The last block: 56 bytes and the length. */
  function Last(tail: seq<bv8>, n: nat): Chunk
    requires |tail| == 56
  {
    tail + BigLength(BitLength(n))
  }

  lemma AlmostMeans(m: seq<bv8>, s: State, tail: seq<bv8>)
    requires AlmostDone(m, s, tail)
    ensures |tail| == 56 && Digest(m) == BigAll(Compress(s, Last(tail, |m|)))
    ensures Last(tail, |m|) == tail + BigLength(BitLength(|m|))
  {
    hide Digest, BigAll, Compress, BigLength, BitLength;
  }

  /** What is left of the padded message after its whole blocks. */
  lemma PaddedRest(m: seq<bv8>, r: seq<bv8>, s: State)
    requires r == Rest(m) && s == Fold<State>(Compress, INITIAL, m)
    ensures Digest(m) == BigAll(Fold<State>(Compress, s, r + (Padding(|m|) + BigLength(BitLength(|m|)))))
  {
    hide Compress, BigAll, Padding, BigLength, BitLength, Rest;
    var p, l := Padding(|m|), BigLength(BitLength(|m|));
    assert m + p + l == m + (p + l);
    FoldMore<State>(Compress, INITIAL, m, p + l);
  }

  lemma OneLast(m: seq<bv8>, r: seq<bv8>, s: State, tail: seq<bv8>)
    requires r == Rest(m) && s == Fold<State>(Compress, INITIAL, m) && |r| == |m| % 64 < 56
    requires tail == r + [0x80] + Zeros(56 - (|r| + 1))
    ensures AlmostDone(m, s, tail)
  {
    hide *;
    PaddedRest(m, r, s);
    LastIs(|m|, r, tail);
    AlmostIs(m, s, tail);
    OneBlock(s, Last(tail, |m|));
  }

  lemma LastIs(n: nat, r: seq<bv8>, tail: seq<bv8>)
    requires |r| == n % 64 < 56 && tail == r + [0x80] + Zeros(56 - (|r| + 1))
    ensures |tail| == 56 && Last(tail, n) == r + (Padding(n) + BigLength(BitLength(n)))
  {
    hide Padding, BigLength, BitLength, Zeros;
    var z := Zeros(55 - |r|);
    PaddingShort(n, |r|, z);
    Regroup(r, [0x80], z, BigLength(BitLength(n)), Padding(n), tail);
  }

  lemma AlmostIs(m: seq<bv8>, s: State, tail: seq<bv8>)
    requires |tail| == 56
    ensures Digest(m) == BigAll(Compress(s, Last(tail, |m|))) ==> AlmostDone(m, s, tail)
    ensures Last(tail, |m|) == tail + BigLength(BitLength(|m|))
  {
    hide Digest, BigAll, Compress, BigLength, BitLength;
  }

  lemma PaddingShort(n: nat, k: nat, z: seq<bv8>)
    requires k == n % 64 < 56 && z == Zeros(55 - k)
    ensures Padding(n) == [0x80] + z
  {
  }

  lemma PaddingLong(n: nat, k: nat, z: seq<bv8>)
    requires 56 <= k == n % 64 && z == Zeros(63 - k)
    ensures Padding(n) == [0x80] + (z + Zeros(56))
  {
    assert Zeros(119 - k) == Zeros(63 - k) + Zeros(56);
  }

  lemma Regroup(r: seq<bv8>, a: seq<bv8>, z: seq<bv8>, l: seq<bv8>, p: seq<bv8>, tail: seq<bv8>)
    requires p == a + z && tail == r + a + z
    ensures r + (p + l) == tail + l
  {
    assert r + (a + z + l) == (r + (a + z)) + l;
  }

  lemma TwoLast(m: seq<bv8>, r: seq<bv8>, s: State, b: seq<bv8>)
    requires r == Rest(m) && s == Fold<State>(Compress, INITIAL, m) && 56 <= |r| == |m| % 64 < 64
    requires b == r + [0x80] + Zeros(64 - (|r| + 1))
    ensures |b| == 64 && AlmostDone(m, Compress(s, b), Zeros(56))
  {
    hide *;
    PaddedRest(m, r, s);
    var z, y, l := Zeros(63 - |r|), Zeros(56), BigLength(BitLength(|m|));
    PaddingLong(|m|, |r|, z);
    RegroupTwo(r, [0x80], z, y, l);
    FoldBlock<State>(Compress, s, b, y + l);
    AlmostIs(m, Compress(s, b), y);
    var whole := r + (Padding(|m|) + l);
    assert whole == b + (y + l);
    assert y + l == Last(y, |m|);
    OneBlock(Compress(s, b), y + l);
    assert Digest(m) == BigAll(Compress(Compress(s, b), y + l));
  }

  lemma RegroupTwo(r: seq<bv8>, a: seq<bv8>, z: seq<bv8>, y: seq<bv8>, l: seq<bv8>)
    ensures r + (a + (z + y) + l) == (r + a + z) + (y + l)
  {
    assert r + (a + (z + y) + l) == r + (a + ((z + y) + l)) == (r + a) + ((z + y) + l) == (r + a) + (z + (y + l));
  }

  /** However a message is cut into pieces, the digest is that of the whole. */
  method HashPieces(pieces: seq<seq<bv8>>) returns (hash: seq<bv8>)
    requires forall i :: 0 <= i < |pieces| ==> |pieces[i]| < 0x1_0000_0000
    ensures hash == Digest(Joined(pieces))
  {
    hide *;
    var ctx := new Context();
    JoinedNext(pieces, 0);
    for i := 0 to |pieces|
      invariant ctx.Valid() && ctx.msg == Joined(pieces[..i])
    {
      JoinedNext(pieces, i);
      ctx.Update(pieces[i]);
    }
    assert pieces[..|pieces|] == pieces;
    hash := ctx.Final();
  }

  lemma FinalBits(n: nat)
    ensures (BlockBits(n) + n % 64 * 8) % 0x1_0000_0000_0000_0000 == BitLength(n)
  {
    var q := 512 * (n / 64) / 0x1_0000_0000_0000_0000;
    ModSame(8 * n, BlockBits(n) + n % 64 * 8, q, 0x1_0000_0000_0000_0000);
  }
}
