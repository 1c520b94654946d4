/** SHA-1 (FIPS 180-4 section 6.1), its circular schedule of 16 words, and the streaming context. */
module Sha1 {
  import opened BlockStream
  import opened Words

  type State = s: seq<bv32> | |s| == 5 witness [0, 0, 0, 0, 0]

  const INITIAL: State := [0x67452301, 0xefcdab89, 0x98badcfe, 0x10325476, 0xc3d2e1f0]

  // ----- the standard -----

  function Ch(x: bv32, y: bv32, z: bv32): bv32 {
    (x & y) ^ (!x & z)
  }

  function Parity(x: bv32, y: bv32, z: bv32): bv32 {
    x ^ y ^ z
  }

  function Maj(x: bv32, y: bv32, z: bv32): bv32 {
    (x & y) ^ (x & z) ^ (y & z)
  }

  function Mix(t: nat, x: bv32, y: bv32, z: bv32): bv32 {
    if t < 20 then Ch(x, y, z) else if t < 40 then Parity(x, y, z) else if t < 60 then Maj(x, y, z) else Parity(x, y, z)
  }

  function K(t: nat): bv32 {
    if t < 20 then 0x5a827999 else if t < 40 then 0x6ed9eba1 else if t < 60 then 0x8f1bbcdc else 0xca62c1d6
  }

  /** The message schedule: 80 words. */
  function W(m: Chunk, t: nat): bv32 {
    if t < 16 then BigEndian(m[4 * t], m[4 * t + 1], m[4 * t + 2], m[4 * t + 3])
    else Rol(XorAll(W(m, t - 3), W(m, t - 8), W(m, t - 14), W(m, t - 16)), 1)
  }

  function XorAll(p: bv32, q: bv32, r: bv32, s: bv32): bv32 {
    p ^ q ^ r ^ s
  }

  datatype Registers = Registers(a: bv32, b: bv32, c: bv32, d: bv32, e: bv32)

  function Round(r: Registers, w: bv32, t: nat): Registers {
    Registers(Total(Rol(r.a, 5), Mix(t, r.b, r.c, r.d), r.e, K(t), w), r.a, Rol(r.b, 30), r.c, r.d)
  }

  function Plus(x: bv32, y: bv32): bv32 {
    x + y
  }

  function Total(v: bv32, f: bv32, z: bv32, k: bv32, w: bv32): bv32 {
    v + f + z + k + w
  }

  function Rounds(s: State, m: Chunk, t: nat): Registers {
    if t == 0 then Registers(s[0], s[1], s[2], s[3], s[4]) else Round(Rounds(s, m, t - 1), W(m, t - 1), t - 1)
  }

  function Compress(s: State, m: Chunk): State {
    Sum(s, Rounds(s, m, 80))
  }

  function Sum(s: State, r: Registers): State {
    [Plus(s[0], r.a), Plus(s[1], r.b), Plus(s[2], r.c), Plus(s[3], r.d), Plus(s[4], r.e)]
  }

  /** The digest of a whole message. */
  function Digest(m: seq<bv8>): (d: seq<bv8>)
    ensures |d| == 20
  {
    BigAll(Fold<State>(Compress, INITIAL, m + Padding(|m|) + BigLength(BitLength(|m|))))
  }

  // ----- the code's forms of the same -----

  function Choose(w: bv32, x: bv32, y: bv32): bv32 {
    (w & (x ^ y)) ^ y
  }

  function Majority(w: bv32, x: bv32, y: bv32): bv32 {
    ((w | x) & y) | (w & x)
  }

  function Added(z: bv32, f: bv32, w: bv32, k: bv32, v: bv32): bv32 {
    z + (f + w + k + v)
  }

  lemma ChIs(x: bv32, y: bv32, z: bv32)
    ensures Choose(x, y, z) == Ch(x, y, z)
  {
    hide *;
    ChooseUnfolds(x, y, z);
    ChUnfolds(x, y, z);
  }

  lemma ChooseUnfolds(x: bv32, y: bv32, z: bv32)
    ensures Choose(x, y, z) == (x & (y ^ z)) ^ z
  {
  }

  lemma ChUnfolds(x: bv32, y: bv32, z: bv32)
    ensures Ch(x, y, z) == (x & (y ^ z)) ^ z
  {
  }

  lemma MajIs(x: bv32, y: bv32, z: bv32)
    ensures Majority(x, y, z) == Maj(x, y, z)
  {
    hide *;
    MajorityUnfolds(x, y, z);
    MajUnfolds(x, y, z);
  }

  lemma MajorityUnfolds(x: bv32, y: bv32, z: bv32)
    ensures Majority(x, y, z) == ((x | y) & z) | (x & y)
  {
  }

  lemma MajUnfolds(x: bv32, y: bv32, z: bv32)
    ensures Maj(x, y, z) == ((x | y) & z) | (x & y)
  {
  }

  lemma AddedIs(z: bv32, f: bv32, w: bv32, k: bv32, v: bv32)
    ensures Added(z, f, w, k, v) == Total(v, f, z, k, w)
  {
  }

  /** Reversing the bytes of a word. */
  function Swap(l: bv32): bv32 {
    (Rol(l, 24) & 0xff00ff00) | (Rol(l, 8) & 0x00ff00ff)
  }

  lemma RolBytes(x: bv32)
    ensures Rol(x, 24) == (x << 24) | (x >> 8) && Rol(x, 8) == (x << 8) | (x >> 24)
  {
  }

  lemma SwapBytes(x: bv32)
    ensures Swap(x) == ((x & 0xff) << 24) | (((x >> 8) & 0xff) << 16) | (((x >> 16) & 0xff) << 8) | (x >> 24)
  {
    RolBytes(x);
    hide Rol;
  }

  lemma SwapIs(a: bv8, b: bv8, c: bv8, d: bv8)
    ensures Swap(LittleEndian(a, b, c, d)) == BigEndian(a, b, c, d)
  {
    hide Swap, LittleEndian;
    SwapBytes(LittleEndian(a, b, c, d));
    LittleParts(a, b, c, d);
  }

  // ----- the transformation -----

  /** A word of the block as a little-endian machine reads it. */
  function Raw(m: Chunk, j: nat): bv32
    requires j < 16
  {
    LittleEndian(m[4 * j], m[4 * j + 1], m[4 * j + 2], m[4 * j + 3])
  }

  /** Before round t the sixteen words hold the last of the schedule so far, each at its number modulo 16. */
  ghost predicate Schedule(block: seq<bv32>, m: Chunk, t: nat) {
    && |block| == 16
    && (forall j: nat :: j < t && t <= j + 16 ==> block[j % 16] == W(m, j))
    && (forall j :: t <= j < 16 ==> block[j] == Raw(m, j))
  }

  lemma ScheduleFirst(block: seq<bv32>, m: Chunk, t: nat)
    requires t < 16 && Schedule(block, m, t)
    ensures Swap(block[t]) == W(m, t) && Schedule(block[t := W(m, t)], m, t + 1)
  {
    hide Swap, LittleEndian, BigEndian;
    SwapIs(m[4 * t], m[4 * t + 1], m[4 * t + 2], m[4 * t + 3]);
  }

  lemma ScheduleAt(block: seq<bv32>, m: Chunk, t: nat, j: nat, p: nat)
    requires Schedule(block, m, t) && j < t <= j + 16 && p == j % 16
    ensures |block| == 16 && block[p] == W(m, j)
  {
    hide W;
  }

  lemma WIs(m: Chunk, t: nat)
    requires 16 <= t
    ensures W(m, t) == Rol(XorAll(W(m, t - 3), W(m, t - 8), W(m, t - 14), W(m, t - 16)), 1)
  {
    hide Rol, XorAll;
  }

  lemma ScheduleNext(block: seq<bv32>, m: Chunk, t: nat)
    requires 16 <= t && Schedule(block, m, t)
    ensures |block| == 16
    ensures Rol(XorAll(block[(t + 13) % 16], block[(t + 8) % 16], block[(t + 2) % 16], block[t % 16]), 1) == W(m, t)
  {
    hide *;
    Places(t);
    ScheduleAt(block, m, t, t - 3, (t + 13) % 16);
    ScheduleAt(block, m, t, t - 8, (t + 8) % 16);
    ScheduleAt(block, m, t, t - 14, (t + 2) % 16);
    ScheduleAt(block, m, t, t - 16, t % 16);
    WIs(m, t);
  }

  lemma ScheduleKept(block: seq<bv32>, m: Chunk, t: nat)
    requires 16 <= t && Schedule(block, m, t)
    ensures Schedule(block[t % 16 := W(m, t)], m, t + 1)
  {
    hide W;
    var w := W(m, t);
    forall j: nat | j < t + 1 && t + 1 <= j + 16 ensures block[t % 16 := w][j % 16] == W(m, j) {
      if j < t {
        Apart(j, t);
      }
    }
  }

  lemma Places(t: nat)
    requires 16 <= t
    ensures (t + 13) % 16 == (t - 3) % 16 && (t + 8) % 16 == (t - 8) % 16 && (t + 2) % 16 == (t - 14) % 16
    ensures t % 16 == (t - 16) % 16
  {
  }

  lemma Apart(j: nat, t: nat)
    requires j < t < j + 16
    ensures j % 16 != t % 16
  {
  }

  /** The word of round t; it takes the place of the one of round t - 16. */
  method NextWord(block: array<bv32>, t: nat, ghost m: Chunk) returns (w: bv32)
    requires Schedule(block[..], m, t)
    modifies block
    ensures w == W(m, t) && Schedule(block[..], m, t + 1)
  {
    hide Schedule, Swap, Rol, W, XorAll;
    ghost var before := block[..];
    ScheduleSize(before, m, t);
    if t < 16 {
      ScheduleFirst(before, m, t);
      block[t] := Swap(block[t]);
      w := block[t];
      assert block[..] == before[t := w];
    } else {
      ScheduleNext(before, m, t);
      ScheduleKept(before, m, t);
      block[t % 16] := Rol(XorAll(block[(t + 13) % 16], block[(t + 8) % 16], block[(t + 2) % 16], block[t % 16]), 1);
      w := block[t % 16];
      assert block[..] == before[t % 16 := w];
    }
  }

  lemma ScheduleSize(block: seq<bv32>, m: Chunk, t: nat)
    requires Schedule(block, m, t)
    ensures |block| == 16
  {
  }

  /** One operation: the register z takes the new value, w is rotated, and the roles move on by one. */
  method Operation(block: array<bv32>, t: nat, v: bv32, w: bv32, x: bv32, y: bv32, z: bv32, ghost m: Chunk)
    returns (z': bv32, w': bv32)
    requires Schedule(block[..], m, t)
    modifies block
    ensures Registers(z', v, w', x, y) == Round(Registers(v, w, x, y, z), W(m, t), t) && Schedule(block[..], m, t + 1)
  {
    hide *;
    var k := NextWord(block, t, m);
    var f;
    if t < 20 {
      f := Choose(w, x, y);
      z' := Added(z, f, k, 0x5a827999, Rol(v, 5));
    } else if t < 40 {
      f := Parity(w, x, y);
      z' := Added(z, f, k, 0x6ed9eba1, Rol(v, 5));
    } else if t < 60 {
      f := Majority(w, x, y);
      z' := Added(z, f, k, 0x8f1bbcdc, Rol(v, 5));
    } else {
      f := Parity(w, x, y);
      z' := Added(z, f, k, 0xca62c1d6, Rol(v, 5));
    }
    w' := Rol(w, 30);
    MixIs(t, w, x, y);
    AddedIs(z, f, k, K(t), Rol(v, 5));
    RoundIs(v, w, x, y, z, k, t);
  }

  lemma RoundIs(a: bv32, b: bv32, c: bv32, d: bv32, e: bv32, w: bv32, t: nat)
    ensures Round(Registers(a, b, c, d, e), w, t)
        == Registers(Total(Rol(a, 5), Mix(t, b, c, d), e, K(t), w), a, Rol(b, 30), c, d)
  {
    hide Rol, Mix, K, Total;
  }

  lemma MixIs(t: nat, x: bv32, y: bv32, z: bv32)
    ensures Mix(t, x, y, z) == if t < 20 then Choose(x, y, z) else if t < 40 then Parity(x, y, z)
        else if t < 60 then Majority(x, y, z) else Parity(x, y, z)
    ensures K(t) == if t < 20 then 0x5a827999 else if t < 40 then 0x6ed9eba1 else if t < 60 then 0x8f1bbcdc
        else 0xca62c1d6
  {
    hide Choose, Parity, Majority, Ch, Maj;
    ChIs(x, y, z);
    MajIs(x, y, z);
  }

  lemma RoundsNext(s: State, m: Chunk, t: nat)
    ensures Rounds(s, m, t + 1) == Round(Rounds(s, m, t), W(m, t), t)
  {
    hide Round, W;
  }

  /** Mixes a block into the state. */
  method Transform(state: array<bv32>, m: Chunk)
    requires state.Length == 5
    modifies state
    ensures state[..] == Compress(old(state[..]), m)
  {
    hide *;
    ghost var s := state[..];
    var block := new bv32[16];
    Load(block, m);
    var a, b, c, d, e := state[0], state[1], state[2], state[3], state[4];
    NoRounds(s, m);
    for k := 0 to 16
      invariant Schedule(block[..], m, 5 * k) && Registers(a, b, c, d, e) == Rounds(s, m, 5 * k) && state[..] == s
    {
      RoundsNext(s, m, 5 * k);
      RoundsNext(s, m, 5 * k + 1);
      RoundsNext(s, m, 5 * k + 2);
      RoundsNext(s, m, 5 * k + 3);
      RoundsNext(s, m, 5 * k + 4);
      e, b := Operation(block, 5 * k, a, b, c, d, e, m);
      d, a := Operation(block, 5 * k + 1, e, a, b, c, d, m);
      c, e := Operation(block, 5 * k + 2, d, e, a, b, c, m);
      b, d := Operation(block, 5 * k + 3, c, d, e, a, b, m);
      a, c := Operation(block, 5 * k + 4, b, c, d, e, a, m);
    }
    AddBack(state, a, b, c, d, e);
    CompressIs(s, m);
  }

  lemma CompressIs(s: State, m: Chunk)
    ensures Compress(s, m) == Sum(s, Rounds(s, m, 80))
  {
    hide Sum, Rounds;
  }

  /** Adds the registers to the state. */
  method AddBack(state: array<bv32>, a: bv32, b: bv32, c: bv32, d: bv32, e: bv32)
    requires state.Length == 5
    modifies state
    ensures state[..] == Sum(old(state[..]), Registers(a, b, c, d, e))
  {
    hide Plus;
    ghost var s := state[..];
    state[0] := Plus(state[0], a);
    state[1] := Plus(state[1], b);
    state[2] := Plus(state[2], c);
    state[3] := Plus(state[3], d);
    state[4] := Plus(state[4], e);
    assert state[..] == [Plus(s[0], a), Plus(s[1], b), Plus(s[2], c), Plus(s[3], d), Plus(s[4], e)];
  }

  lemma NoRounds(s: State, m: Chunk)
    ensures Rounds(s, m, 0) == Registers(s[0], s[1], s[2], s[3], s[4])
  {
  }

  /** Copies a block into sixteen words. */
  method Load(block: array<bv32>, m: Chunk)
    requires block.Length == 16
    modifies block
    ensures Schedule(block[..], m, 0)
  {
    hide LittleEndian;
    forall j | 0 <= j < 16 {
      block[j] := Raw(m, j);
    }
  }

  // ----- streaming -----

  class Context {
    const state: array<bv32>
    const buffer: array<bv8>
    var count0: nat
    var count1: nat
    ghost var msg: seq<bv8>

    constructor ()
      ensures Valid() && msg == [] && fresh(state) && fresh(buffer)
    {
      state := new bv32[5] [0x67452301, 0xefcdab89, 0x98badcfe, 0x10325476, 0xc3d2e1f0];
      buffer := new bv8[64](_ => 0);
      count0, count1, msg := 0, 0, [];
      new;
      Nothing();
    }

    lemma Nothing()
      requires state.Length == 5 && buffer.Length == 64 && count0 == 0 == count1 && msg == [] && state[..] == INITIAL
      ensures Valid()
    {
      FoldShort<State>(Compress, INITIAL, []);
      NothingCounted();
      RestShort([]);
      hide *;
      Closed();
    }

    /** The state has taken in all whole blocks of the message so far, and the buffer holds the bytes after them. */
    ghost predicate Valid()
      reads this, state, buffer
    {
      && state.Length == 5 && buffer.Length == 64 && Counts(count0, count1, |msg|)
      && state[..] == Fold<State>(Compress, INITIAL, msg) && buffer[..|msg| % 64] == Rest(msg)
    }

    /** Copies bytes into the buffer. */
    method Copy(j: nat, bytes: seq<bv8>)
      requires buffer.Length == 64 && j + |bytes| <= 64
      modifies buffer
      ensures buffer[..j + |bytes|] == old(buffer[..j]) + bytes
    {
      forall k | 0 <= k < |bytes| {
        buffer[j + k] := bytes[k];
      }
    }

    /** Counts the bits of len more bytes. */
    method Count(len: nat)
      requires Counts(count0, count1, |msg|) && len < 0x1_0000_0000
      modifies `count0, `count1
      ensures Counts(count0, count1, |msg| + len)
    {
      hide Counts;
      CountsSmall(count0, count1, |msg|);
      ghost var lo, hi := count0, count1;
      var j := count0;
      count0 := (count0 + 8 * len % 0x1_0000_0000) % 0x1_0000_0000;
      if count0 < j {
        count1 := (count1 + 1) % 0x1_0000_0000;
      }
      count1 := (count1 + len / 0x2000_0000) % 0x1_0000_0000;
      HighWord(hi, if count0 < lo then 1 else 0, len / 0x2000_0000);
      CountMore(lo, hi, |msg|, len, count0, count1);
    }

    /** Mixes in all whole blocks of the bytes. */
    method Absorb(data: seq<bv8>, from: nat) returns (i: nat)
      requires from <= |data| && state.Length == 5
      modifies state
      ensures from <= i <= |data| < i + 64
      ensures state[..] == Fold<State>(Compress, old(state[..]), data[from..]) && Rest(data[from..]) == data[i..]
    {
      hide *;
      i := from;
      while i + 63 < |data|
        invariant from <= i <= |data|
        invariant Fold<State>(Compress, state[..], data[i..]) == Fold<State>(Compress, old(state[..]), data[from..])
        invariant Rest(data[i..]) == Rest(data[from..])
      {
        assert data[i..] == data[i..i + 64] + data[i + 64..];
        FoldBlock<State>(Compress, state[..], data[i..i + 64], data[i + 64..]);
        Transform(state, data[i..i + 64]);
        i := i + 64;
      }
      FoldShort<State>(Compress, state[..], data[i..]);
      RestShort(data[i..]);
    }

    /** Fills the buffer up, after the bytes r that wait in it, and mixes it in. */
    method FillUp(j: nat, data: seq<bv8>, ghost r: seq<bv8>) returns (i: nat)
      requires state.Length == 5 && buffer.Length == 64 && j == |r| < 64 && buffer[..j] == r && j + |data| > 63
      modifies state, buffer
      ensures i == 64 - j <= |data|
      ensures Fold<State>(Compress, state[..], data[i..]) == Fold<State>(Compress, old(state[..]), r + data)
      ensures Rest(data[i..]) == Rest(r + data)
    {
      hide *;
      i := 64 - j;
      Copy(j, data[..i]);
      assert buffer[..64] == buffer[..];
      ghost var b: Chunk := buffer[..];
      Regroup(r, data, i, b);
      FoldBlock<State>(Compress, state[..], b, data[i..]);
      Transform(state, buffer[..]);
    }

    /**
     Adds a piece to the message. The 32-bit sum of the bytes that wait and the new ones must not wrap: this is so for
     pieces of up to 2^32 - 64 bytes, whatever waits.
     */
    method Update(data: seq<bv8>)
      requires Valid() && |msg| % 64 + |data| < 0x1_0000_0000
      modifies this, state, buffer
      ensures Valid() && msg == old(msg) + data
    {
      hide *;
      Opened();
      ghost var s0, m, r := state[..], msg, Rest(msg);
      var j := count0 / 8 % 64;
      Count(|data|);
      FoldMore<State>(Compress, INITIAL, m, data);
      var i: nat := 0;
      if j + |data| > 63 {
        i := FillUp(j, data, r);
        i := Absorb(data, i);
        j := 0;
        assert buffer[..j] + data[i..] == data[i..];
      } else {
        FoldShort<State>(Compress, s0, r + data);
        RestShort(r + data);
        assert data[i..] == data;
      }
      Keep(j, data[i..], m + data);
    }

    /** Puts the last bytes of the message into the buffer. */
    method Keep(j: nat, tail: seq<bv8>, ghost whole: seq<bv8>)
      requires state.Length == 5 && buffer.Length == 64 && Counts(count0, count1, |whole|) && j <= 64
      requires state[..] == Fold<State>(Compress, INITIAL, whole) && buffer[..j] + tail == Rest(whole)
      modifies buffer, `msg
      ensures Valid() && msg == whole
    {
      hide *;
      RestSmall(whole);
      Copy(j, tail);
      msg := whole;
      Closed();
    }

    lemma Opened()
      requires Valid()
      ensures state.Length == 5 && buffer.Length == 64 && Counts(count0, count1, |msg|)
      ensures count0 / 8 % 64 == |msg| % 64 == |Rest(msg)|
      ensures state[..] == Fold<State>(Compress, INITIAL, msg) && buffer[..|msg| % 64] == Rest(msg)
    {
      hide Compress, Counts;
      IndexFromCount(count0, count1, |msg|);
    }

    lemma Closed()
      requires state.Length == 5 && buffer.Length == 64 && Counts(count0, count1, |msg|)
      requires state[..] == Fold<State>(Compress, INITIAL, msg)
      requires |Rest(msg)| <= 64 && buffer[..|Rest(msg)|] == Rest(msg)
      ensures Valid()
    {
      hide Compress, Counts;
    }

    /** Pads the message and gives the digest. */
    method Final() returns (digest: seq<bv8>)
      requires Valid()
      modifies this, state, buffer
      ensures digest == Digest(old(msg))
    {
      hide *;
      Opened();
      ghost var m := msg;
      var length := LengthBytes();
      Update([0x80]);
      PaddingStarts(m);
      Opened();
      ghost var k: nat := 0;
      while count0 / 8 % 64 != 56
        invariant Valid() && count0 / 8 % 64 == |msg| % 64
        invariant k <= (119 - |m| % 64) % 64 && msg == m + ([0x80] + Zeros(k))
        decreases (119 - |m| % 64) % 64 - k
      {
        PaddingNext(m, k, |msg|);
        Update([0]);
        k := k + 1;
        Opened();
      }
      PaddingEnds(m, k, |msg|);
      Update(length);
      Opened();
      WholeMessage(m, msg);
      digest := BigAll(state[..]);
    }

    /** The bit count before the padding. */
    method LengthBytes() returns (b: seq<bv8>)
      requires Counts(count0, count1, |msg|)
      ensures b == BigLength(BitLength(|msg|))
    {
      TwoWords(count0, count1);
      hide ByteAt;
      b := [ByteAt(count1, 3), ByteAt(count1, 2), ByteAt(count1, 1), ByteAt(count1, 0),
            ByteAt(count0, 3), ByteAt(count0, 2), ByteAt(count0, 1), ByteAt(count0, 0)];
      var n := BitLength(|msg|);
      assert ByteAt(n, 0) == ByteAt(count0, 0) && ByteAt(n, 0 + 4) == ByteAt(count1, 0);
      assert ByteAt(n, 1) == ByteAt(count0, 1) && ByteAt(n, 1 + 4) == ByteAt(count1, 1);
      assert ByteAt(n, 2) == ByteAt(count0, 2) && ByteAt(n, 2 + 4) == ByteAt(count1, 2);
      assert ByteAt(n, 3) == ByteAt(count0, 3) && ByteAt(n, 3 + 4) == ByteAt(count1, 3);
    }
  }

  lemma RestSmall(m: seq<bv8>)
    ensures |Rest(m)| < 64
  {
  }

  lemma Regroup(r: seq<bv8>, data: seq<bv8>, i: nat, b: seq<bv8>)
    requires i <= |data| && b == r + data[..i]
    ensures r + data == b + data[i..]
  {
    assert data == data[..i] + data[i..];
  }

  lemma WholeMessage(m: seq<bv8>, whole: seq<bv8>)
    requires whole == m + Padding(|m|) + BigLength(BitLength(|m|))
    ensures Digest(m) == BigAll(Fold<State>(Compress, INITIAL, whole))
  {
    hide Fold, BigAll, Compress, Padding, BigLength;
  }

  /** Hashes a message byte by byte. */
  method Hash(str: seq<bv8>) returns (digest: seq<bv8>)
    requires |str| < 0x1_0000_0000
    ensures digest == Digest(str)
  {
    hide *;
    var ctx := new Context();
    for i := 0 to |str|
      invariant ctx.Valid() && ctx.msg == str[..i]
    {
      assert str[..i + 1] == str[..i] + [str[i]];
      ctx.Opened();
      ctx.Update([str[i]]);
    }
    assert str[..|str|] == str;
    digest := ctx.Final();
  }

  /** However a message is cut into pieces, the digest is that of the whole. */
  method HashPieces(pieces: seq<seq<bv8>>) returns (digest: seq<bv8>)
    requires forall i :: 0 <= i < |pieces| ==> |pieces[i]| <= 0xffff_ffc0
    ensures digest == Digest(Joined(pieces))
  {
    hide *;
    var ctx := new Context();
    JoinedNext(pieces, 0);
    for i := 0 to |pieces|
      invariant ctx.Valid() && ctx.msg == Joined(pieces[..i])
    {
      JoinedNext(pieces, i);
      ctx.Opened();
      ctx.Update(pieces[i]);
    }
    assert pieces[..|pieces|] == pieces;
    digest := ctx.Final();
  }
}
