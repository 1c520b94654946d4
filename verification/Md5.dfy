/** MD5 (RFC 1321) and its streaming context. */
module Md5 {
  import opened BlockStream
  import opened Words

  type State = s: seq<bv32> | |s| == 4 witness [0, 0, 0, 0]

  const INITIAL: State := [0x67452301, 0xefcdab89, 0x98badcfe, 0x10325476]

  // ----- the standard, section 3.4 -----

  function F(x: bv32, y: bv32, z: bv32): bv32 {
    (x & y) | (!x & z)
  }

  function G(x: bv32, y: bv32, z: bv32): bv32 {
    (x & z) | (y & !z)
  }

  function H(x: bv32, y: bv32, z: bv32): bv32 {
    x ^ y ^ z
  }

  function I(x: bv32, y: bv32, z: bv32): bv32 {
    y ^ (x | !z)
  }

  function Mix(t: nat, x: bv32, y: bv32, z: bv32): bv32 {
    if t < 16 then F(x, y, z) else if t < 32 then G(x, y, z) else if t < 48 then H(x, y, z) else I(x, y, z)
  }

  /** The word of the block that step t uses. */
  function Place(t: nat): (k: nat)
    ensures k < 16
  {
    if t < 16 then t else if t < 32 then (5 * t + 1) % 16 else if t < 48 then (3 * t + 5) % 16 else 7 * t % 16
  }

  /** The constants: 2^32 times the sine of t + 1, without its sign and its fraction. */
  const SINES1: seq<bv32> := [
    0xd76aa478, 0xe8c7b756, 0x242070db, 0xc1bdceee, 0xf57c0faf, 0x4787c62a, 0xa8304613, 0xfd469501,
    0x698098d8, 0x8b44f7af, 0xffff5bb1, 0x895cd7be, 0x6b901122, 0xfd987193, 0xa679438e, 0x49b40821]
  const SINES2: seq<bv32> := [
    0xf61e2562, 0xc040b340, 0x265e5a51, 0xe9b6c7aa, 0xd62f105d, 0x02441453, 0xd8a1e681, 0xe7d3fbc8,
    0x21e1cde6, 0xc33707d6, 0xf4d50d87, 0x455a14ed, 0xa9e3e905, 0xfcefa3f8, 0x676f02d9, 0x8d2a4c8a]
  const SINES3: seq<bv32> := [
    0xfffa3942, 0x8771f681, 0x6d9d6122, 0xfde5380c, 0xa4beea44, 0x4bdecfa9, 0xf6bb4b60, 0xbebfbc70,
    0x289b7ec6, 0xeaa127fa, 0xd4ef3085, 0x04881d05, 0xd9d4d039, 0xe6db99e5, 0x1fa27cf8, 0xc4ac5665]
  const SINES4: seq<bv32> := [
    0xf4292244, 0x432aff97, 0xab9423a7, 0xfc93a039, 0x655b59c3, 0x8f0ccc92, 0xffeff47d, 0x85845dd1,
    0x6fa87e4f, 0xfe2ce6e0, 0xa3014314, 0x4e0811a1, 0xf7537e82, 0xbd3af235, 0x2ad7d2bb, 0xeb86d391]

  function Sine(t: nat): bv32
    requires t < 64
  {
    if t < 16 then SINES1[t] else if t < 32 then SINES2[t - 16] else if t < 48 then SINES3[t - 32] else SINES4[t - 48]
  }

  const SHIFTS: seq<nat> := [7, 12, 17, 22, 5, 9, 14, 20, 4, 11, 16, 23, 6, 10, 15, 21]

  function Shift(t: nat): (n: nat)
    requires t < 64
    ensures n <= 32
  {
    SHIFTS[4 * (t / 16) + t % 4]
  }

  function X(m: Chunk, k: nat): bv32
    requires k < 16
  {
    LittleEndian(m[4 * k], m[4 * k + 1], m[4 * k + 2], m[4 * k + 3])
  }

  datatype Registers = Registers(a: bv32, b: bv32, c: bv32, d: bv32)

  function Plus(x: bv32, y: bv32): bv32 {
    x + y
  }

  function Total(a: bv32, f: bv32, x: bv32, k: bv32): bv32 {
    a + f + x + k
  }

  /** Step t gives a new value to the first register, which then is the second. */
  function Step(r: Registers, x: bv32, t: nat): Registers
    requires t < 64
  {
    Registers(r.d, Plus(r.b, Rol(Total(r.a, Mix(t, r.b, r.c, r.d), x, Sine(t)), Shift(t))), r.b, r.c)
  }

  function Steps(s: State, m: Chunk, t: nat): Registers
    requires t <= 64
  {
    if t == 0 then Registers(s[0], s[1], s[2], s[3]) else Step(Steps(s, m, t - 1), X(m, Place(t - 1)), t - 1)
  }

  function Compress(s: State, m: Chunk): State {
    Sum(s, Steps(s, m, 64))
  }

  function Sum(s: State, r: Registers): State {
    [Plus(s[0], r.a), Plus(s[1], r.b), Plus(s[2], r.c), Plus(s[3], r.d)]
  }

  /** The digest of a whole message. */
  function Digest(m: seq<bv8>): (d: seq<bv8>)
    ensures |d| == 16
  {
    LittleAll(Fold(Compress, INITIAL, m + Padding(|m|) + LittleLength(BitLength(|m|))))
  }

  // ----- the transformation -----

  /** The words in the order in which the code takes them. */
  const ORDER2: seq<nat> := [1, 6, 11, 0, 5, 10, 15, 4, 9, 14, 3, 8, 13, 2, 7, 12]
  const ORDER3: seq<nat> := [5, 8, 11, 14, 1, 4, 7, 10, 13, 0, 3, 6, 9, 12, 15, 2]
  const ORDER4: seq<nat> := [0, 7, 14, 5, 12, 3, 10, 1, 8, 15, 6, 13, 4, 11, 2, 9]

  function Order(t: nat): (k: nat)
    requires t < 64
    ensures k < 16
  {
    if t < 16 then t else if t < 32 then ORDER2[t - 16] else if t < 48 then ORDER3[t - 32] else ORDER4[t - 48]
  }

  lemma OrderIs(t: nat)
    requires t < 64
    ensures Order(t) == Place(t)
  {
    if 16 <= t < 32 {
      SecondOrder(t - 16);
    } else if 32 <= t < 48 {
      ThirdOrder(t - 32);
    } else if 48 <= t {
      FourthOrder(t - 48);
    }
  }

  lemma SecondOrder(i: nat)
    requires i < 16
    ensures ORDER2[i] == (5 * (i + 16) + 1) % 16
  {
  }

  lemma ThirdOrder(i: nat)
    requires i < 16
    ensures ORDER3[i] == (3 * (i + 32) + 5) % 16
  {
  }

  lemma FourthOrder(i: nat)
    requires i < 16
    ensures ORDER4[i] == 7 * (i + 48) % 16
  {
  }

  function Added(a: bv32, f: bv32, x: bv32, ac: bv32): bv32 {
    a + (f + x + ac)
  }

  lemma AddedIs(a: bv32, f: bv32, x: bv32, ac: bv32)
    ensures Added(a, f, x, ac) == Total(a, f, x, ac)
  {
  }

  lemma StepIs(a: bv32, b: bv32, c: bv32, d: bv32, x: bv32, t: nat)
    requires t < 64
    ensures Step(Registers(a, b, c, d), x, t)
         == Registers(d, Plus(b, Rol(Total(a, Mix(t, b, c, d), x, Sine(t)), Shift(t))), b, c)
  {
    hide Plus, Total, Mix, Rol, Sine, Shift;
  }

  lemma MixIs(t: nat, x: bv32, y: bv32, z: bv32)
    ensures Mix(t, x, y, z) == if t < 16 then F(x, y, z) else if t < 32 then G(x, y, z) else if t < 48 then H(x, y, z)
        else I(x, y, z)
  {
    hide F, G, H, I;
  }

  /** One of the 64 operations. */
  method Operation(words: array<bv32>, t: nat, a: bv32, b: bv32, c: bv32, d: bv32, ghost m: Chunk) returns (a': bv32)
    requires t < 64 && Decoded(words[..], m)
    ensures Step(Registers(a, b, c, d), X(m, Place(t)), t) == Registers(d, a', b, c)
  {
    hide *;
    OrderIs(t);
    WordAt(words[..], m, Order(t));
    var x := words[Order(t)];
    var f := if t < 16 then F(b, c, d) else if t < 32 then G(b, c, d) else if t < 48 then H(b, c, d) else I(b, c, d);
    a' := Added(a, f, x, Sine(t));
    a' := Rol(a', Shift(t));
    a' := Plus(a', b);
    MixIs(t, b, c, d);
    AddedIs(a, f, x, Sine(t));
    PlusCommutes(Rol(Added(a, f, x, Sine(t)), Shift(t)), b);
    StepIs(a, b, c, d, x, t);
  }

  lemma PlusCommutes(x: bv32, y: bv32)
    ensures Plus(x, y) == Plus(y, x)
  {
  }

  ghost predicate Decoded(words: seq<bv32>, m: Chunk) {
    |words| == 16 && forall k :: 0 <= k < 16 ==> words[k] == X(m, k)
  }

  lemma WordAt(words: seq<bv32>, m: Chunk, k: nat)
    requires Decoded(words, m) && k < 16
    ensures |words| == 16 && words[k] == X(m, k)
  {
    hide LittleEndian;
  }

  /** Reads a block as sixteen words. */
  method Decode(words: array<bv32>, m: Chunk)
    requires words.Length == 16
    modifies words
    ensures Decoded(words[..], m)
  {
    hide LittleEndian;
    var i, j := 0, 0;
    while j < 64
      invariant j == 4 * i && i <= 16 && forall k :: 0 <= k < i ==> words[k] == X(m, k)
      decreases 64 - j
    {
      words[i] := LittleEndian(m[j], m[j + 1], m[j + 2], m[j + 3]);
      i, j := i + 1, j + 4;
    }
  }

  lemma StepsNext(s: State, m: Chunk, t: nat)
    requires t < 64
    ensures Steps(s, m, t + 1) == Step(Steps(s, m, t), X(m, Place(t)), t)
  {
    hide Step, X, Place;
  }

  lemma NoSteps(s: State, m: Chunk)
    ensures Steps(s, m, 0) == Registers(s[0], s[1], s[2], s[3])
  {
  }

  /** Mixes a block into the state. */
  method Transform(state: array<bv32>, m: Chunk)
    requires state.Length == 4
    modifies state
    ensures state[..] == Compress(old(state[..]), m)
  {
    hide *;
    ghost var s := state[..];
    var words := new bv32[16];
    Decode(words, m);
    var a, b, c, d := state[0], state[1], state[2], state[3];
    NoSteps(s, m);
    for k := 0 to 16
      invariant Decoded(words[..], m) && Registers(a, b, c, d) == Steps(s, m, 4 * k) && state[..] == s
    {
      StepsNext(s, m, 4 * k);
      StepsNext(s, m, 4 * k + 1);
      StepsNext(s, m, 4 * k + 2);
      StepsNext(s, m, 4 * k + 3);
      a := Operation(words, 4 * k, a, b, c, d, m);
      d := Operation(words, 4 * k + 1, d, a, b, c, m);
      c := Operation(words, 4 * k + 2, c, d, a, b, m);
      b := Operation(words, 4 * k + 3, b, c, d, a, m);
    }
    AddBack(state, a, b, c, d);
    CompressIs(s, m);
  }

  lemma CompressIs(s: State, m: Chunk)
    ensures Compress(s, m) == Sum(s, Steps(s, m, 64))
  {
    hide Sum, Steps;
  }

  /** Adds the registers to the state. */
  method AddBack(state: array<bv32>, a: bv32, b: bv32, c: bv32, d: bv32)
    requires state.Length == 4
    modifies state
    ensures state[..] == Sum(old(state[..]), Registers(a, b, c, d))
  {
    hide Plus;
    ghost var s := state[..];
    state[0] := Plus(state[0], a);
    state[1] := Plus(state[1], b);
    state[2] := Plus(state[2], c);
    state[3] := Plus(state[3], d);
    assert state[..] == [Plus(s[0], a), Plus(s[1], b), Plus(s[2], c), Plus(s[3], d)];
  }

  // ----- streaming -----

  class Context {
    const state: array<bv32>
    const buffer: array<bv8>
    var count0: nat
    var count1: nat
    ghost var msg: seq<bv8>

    constructor ()
      ensures Valid() && msg == [] && fresh(state) && fresh(buffer)
    {
      state := new bv32[4] [0x67452301, 0xefcdab89, 0x98badcfe, 0x10325476];
      buffer := new bv8[64](_ => 0);
      count0, count1, msg := 0, 0, [];
      new;
      Nothing();
    }

    lemma Nothing()
      requires state.Length == 4 && buffer.Length == 64 && count0 == 0 == count1 && msg == [] && state[..] == INITIAL
      ensures Valid()
    {
      FoldShort<State>(Compress, INITIAL, []);
      NothingCounted();
      RestShort([]);
      hide *;
      Closed();
    }

    /** The state has taken in all whole blocks of the message so far, and the buffer holds the bytes after them. */
    ghost predicate Valid()
      reads this, state, buffer
    {
      && state.Length == 4 && buffer.Length == 64 && Counts(count0, count1, |msg|)
      && state[..] == Fold<State>(Compress, INITIAL, msg) && buffer[..|msg| % 64] == Rest(msg)
    }

    /** Copies bytes into the buffer. */
    method Copy(j: nat, bytes: seq<bv8>)
      requires buffer.Length == 64 && j + |bytes| <= 64
      modifies buffer
      ensures buffer[..j + |bytes|] == old(buffer[..j]) + bytes
    {
      forall k | 0 <= k < |bytes| {
        buffer[j + k] := bytes[k];
      }
    }

    /** Counts the bits of len more bytes. */
    method Count(len: nat)
      requires Counts(count0, count1, |msg|) && len < 0x1_0000_0000
      modifies `count0, `count1
      ensures Counts(count0, count1, |msg| + len)
    {
      hide Counts;
      CountsSmall(count0, count1, |msg|);
      ghost var lo, hi := count0, count1;
      count0 := (count0 + 8 * len % 0x1_0000_0000) % 0x1_0000_0000;
      CarryEither(lo, 8 * len % 0x1_0000_0000, count0);
      if count0 < 8 * len % 0x1_0000_0000 {
        count1 := (count1 + 1) % 0x1_0000_0000;
      }
      count1 := (count1 + len / 0x2000_0000) % 0x1_0000_0000;
      HighWord(hi, if count0 < lo then 1 else 0, len / 0x2000_0000);
      CountMore(lo, hi, |msg|, len, count0, count1);
    }

    /** Mixes in all whole blocks of the bytes. */
    method Absorb(data: seq<bv8>, from: nat) returns (i: nat)
      requires from <= |data| && state.Length == 4
      modifies state
      ensures from <= i <= |data| < i + 64
      ensures state[..] == Fold<State>(Compress, old(state[..]), data[from..]) && Rest(data[from..]) == data[i..]
    {
      hide *;
      i := from;
      while i + 63 < |data|
        invariant from <= i <= |data|
        invariant Fold<State>(Compress, state[..], data[i..]) == Fold<State>(Compress, old(state[..]), data[from..])
        invariant Rest(data[i..]) == Rest(data[from..])
      {
        assert data[i..] == data[i..i + 64] + data[i + 64..];
        FoldBlock<State>(Compress, state[..], data[i..i + 64], data[i + 64..]);
        Transform(state, data[i..i + 64]);
        i := i + 64;
      }
      FoldShort<State>(Compress, state[..], data[i..]);
      RestShort(data[i..]);
    }

    /** Fills the buffer up, after the bytes r that wait in it, and mixes it in. */
    method FillUp(j: nat, data: seq<bv8>, ghost r: seq<bv8>) returns (i: nat)
      requires state.Length == 4 && buffer.Length == 64 && j == |r| < 64 && buffer[..j] == r && j + |data| > 63
      modifies state, buffer
      ensures i == 64 - j <= |data|
      ensures Fold<State>(Compress, state[..], data[i..]) == Fold<State>(Compress, old(state[..]), r + data)
      ensures Rest(data[i..]) == Rest(r + data)
    {
      hide *;
      i := 64 - j;
      Copy(j, data[..i]);
      assert buffer[..64] == buffer[..];
      ghost var b: Chunk := buffer[..];
      Regroup(r, data, i, b);
      FoldBlock<State>(Compress, state[..], b, data[i..]);
      Transform(state, buffer[..]);
    }

    /**
     Adds a piece to the message. The 32-bit sum of the bytes that wait and the new ones must not wrap: this is so for
     pieces of up to 2^32 - 64 bytes, whatever waits.
     */
    method Update(data: seq<bv8>)
      requires Valid() && |msg| % 64 + |data| < 0x1_0000_0000
      modifies this, state, buffer
      ensures Valid() && msg == old(msg) + data
    {
      hide *;
      Opened();
      ghost var s0, m, r := state[..], msg, Rest(msg);
      var j := count0 / 8 % 64;
      Count(|data|);
      FoldMore<State>(Compress, INITIAL, m, data);
      var i: nat := 0;
      if |data| >= 64 - j {
        i := FillUp(j, data, r);
        i := Absorb(data, i);
        j := 0;
        assert buffer[..j] + data[i..] == data[i..];
      } else {
        FoldShort<State>(Compress, s0, r + data);
        RestShort(r + data);
        assert data[i..] == data;
      }
      Keep(j, data[i..], m + data);
    }

    /** Puts the last bytes of the message into the buffer. */
    method Keep(j: nat, tail: seq<bv8>, ghost whole: seq<bv8>)
      requires state.Length == 4 && buffer.Length == 64 && Counts(count0, count1, |whole|) && j <= 64
      requires state[..] == Fold<State>(Compress, INITIAL, whole) && buffer[..j] + tail == Rest(whole)
      modifies buffer, `msg
      ensures Valid() && msg == whole
    {
      hide *;
      RestSmall(whole);
      Copy(j, tail);
      msg := whole;
      Closed();
    }

    lemma Opened()
      requires Valid()
      ensures state.Length == 4 && buffer.Length == 64 && Counts(count0, count1, |msg|)
      ensures count0 / 8 % 64 == |msg| % 64 == |Rest(msg)|
      ensures state[..] == Fold<State>(Compress, INITIAL, msg) && buffer[..|msg| % 64] == Rest(msg)
    {
      hide Compress, Counts;
      IndexFromCount(count0, count1, |msg|);
    }

    lemma Closed()
      requires state.Length == 4 && buffer.Length == 64 && Counts(count0, count1, |msg|)
      requires state[..] == Fold<State>(Compress, INITIAL, msg)
      requires |Rest(msg)| <= 64 && buffer[..|Rest(msg)|] == Rest(msg)
      ensures Valid()
    {
      hide Compress, Counts;
    }

    /** Pads the message and gives the digest. */
    method Final() returns (digest: seq<bv8>)
      requires Valid()
      modifies this, state, buffer
      ensures digest == Digest(old(msg))
    {
      hide *;
      Opened();
      ghost var m := msg;
      var bits := LengthBytes();
      var index := count0 / 8 % 64;
      var padLen := if index < 56 then 56 - index else 120 - index;
      PaddingIs(|m|, index, padLen);
      Update(PADDING[..padLen]);
      Opened();
      Update(bits);
      Opened();
      WholeMessage(m, msg);
      digest := LittleAll(state[..]);
    }

    /** The bit count before the padding. */
    method LengthBytes() returns (b: seq<bv8>)
      requires Counts(count0, count1, |msg|)
      ensures b == LittleLength(BitLength(|msg|))
    {
      TwoWords(count0, count1);
      hide ByteAt;
      b := [ByteAt(count0, 0), ByteAt(count0, 1), ByteAt(count0, 2), ByteAt(count0, 3),
            ByteAt(count1, 0), ByteAt(count1, 1), ByteAt(count1, 2), ByteAt(count1, 3)];
      var n := BitLength(|msg|);
      assert ByteAt(n, 0) == ByteAt(count0, 0) && ByteAt(n, 0 + 4) == ByteAt(count1, 0);
      assert ByteAt(n, 1) == ByteAt(count0, 1) && ByteAt(n, 1 + 4) == ByteAt(count1, 1);
      assert ByteAt(n, 2) == ByteAt(count0, 2) && ByteAt(n, 2 + 4) == ByteAt(count1, 2);
      assert ByteAt(n, 3) == ByteAt(count0, 3) && ByteAt(n, 3 + 4) == ByteAt(count1, 3);
    }
  }

  lemma RestSmall(m: seq<bv8>)
    ensures |Rest(m)| < 64
  {
  }

  lemma Regroup(r: seq<bv8>, data: seq<bv8>, i: nat, b: seq<bv8>)
    requires i <= |data| && b == r + data[..i]
    ensures r + data == b + data[i..]
  {
    assert data == data[..i] + data[i..];
  }

  /** The first bytes of the 64 that pad a message. */
  const PADDING: seq<bv8> := [0x80] + Zeros(63)

  lemma PaddingIs(n: nat, index: nat, padLen: nat)
    requires index == n % 64 && padLen == if index < 56 then 56 - index else 120 - index
    ensures padLen <= |PADDING| && PADDING[..padLen] == Padding(n)
  {
    assert padLen == 1 + (119 - n % 64) % 64;
  }

  lemma WholeMessage(m: seq<bv8>, whole: seq<bv8>)
    requires whole == m + Padding(|m|) + LittleLength(BitLength(|m|))
    ensures Digest(m) == LittleAll(Fold<State>(Compress, INITIAL, whole))
  {
    hide Fold, LittleAll, Compress, Padding, LittleLength;
  }

  /** However a message is cut into pieces, the digest is that of the whole. */
  method HashPieces(pieces: seq<seq<bv8>>) returns (digest: seq<bv8>)
    requires forall i :: 0 <= i < |pieces| ==> |pieces[i]| <= 0xffff_ffc0
    ensures digest == Digest(Joined(pieces))
  {
    hide *;
    var ctx := new Context();
    JoinedNext(pieces, 0);
    for i := 0 to |pieces|
      invariant ctx.Valid() && ctx.msg == Joined(pieces[..i])
    {
      JoinedNext(pieces, i);
      ctx.Opened();
      ctx.Update(pieces[i]);
    }
    assert pieces[..|pieces|] == pieces;
    digest := ctx.Final();
  }
}
