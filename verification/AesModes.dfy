/** Cipher block chaining and counter mode (SP 800-38A sections 6.2 and 6.5) on buffers that are changed in place. */
module AesModes {
  import opened GaloisField
  import opened Aes
  import opened AesInPlace
  import opened Division

  // ----- cipher block chaining -----

  /** Each block is added to the ciphertext of the one before and encrypted. */
  function CbcEncrypt(w: seq<bv8>, iv: Block, p: seq<bv8>): (c: seq<bv8>)
    requires |w| == 240 && |p| % 16 == 0
    ensures |c| == |p|
    decreases |p|
  {
    if p == [] then [] else
    var c := Encrypt(XorBlocks(p[..16], iv), w);
    c + CbcEncrypt(w, c, p[16..])
  }

  function CbcDecrypt(w: seq<bv8>, iv: Block, c: seq<bv8>): (p: seq<bv8>)
    requires |w| == 240 && |c| % 16 == 0
    ensures |p| == |c|
    decreases |c|
  {
    if c == [] then [] else XorBlocks(Decrypt(c[..16], w), iv) + CbcDecrypt(w, c[..16], c[16..])
  }

  /** What chains to the next block. */
  function Chained(iv: Block, c: seq<bv8>): Block {
    if |c| < 16 then iv else c[|c| - 16..]
  }

  /** Decryption undoes encryption, for any key, vector and number of blocks. */
  lemma {:induction false} CbcRoundTrip(w: seq<bv8>, iv: Block, p: seq<bv8>)
    requires |w| == 240 && |p| % 16 == 0
    ensures CbcDecrypt(w, iv, CbcEncrypt(w, iv, p)) == p
    decreases |p|
  {
    hide Encrypt, Decrypt, XorBlocks;
    if p != [] {
      var c: Block := Encrypt(XorBlocks(p[..16], iv), w);
      var rest := CbcEncrypt(w, c, p[16..]);
      assert (c + rest)[..16] == c && (c + rest)[16..] == rest;
      DecryptEncrypt(XorBlocks(p[..16], iv), w);
      XorBlocksBack(p[..16], iv);
      CbcRoundTrip(w, c, p[16..]);
    }
  }

  /** Encrypting in two calls: the second goes on from the vector that the first leaves. */
  lemma {:induction false} CbcEncryptSplit(w: seq<bv8>, iv: Block, p: seq<bv8>, q: seq<bv8>)
    requires |w| == 240 && |p| % 16 == 0 && |q| % 16 == 0
    ensures var c := CbcEncrypt(w, iv, p); CbcEncrypt(w, iv, p + q) == c + CbcEncrypt(w, Chained(iv, c), q)
    decreases |p|
  {
    hide Encrypt, XorBlocks;
    if p == [] {
      assert p + q == q;
    } else {
      var c: Block := Encrypt(XorBlocks(p[..16], iv), w);
      assert (p + q)[..16] == p[..16] && (p + q)[16..] == p[16..] + q;
      CbcEncryptSplit(w, c, p[16..], q);
      var rest := CbcEncrypt(w, c, p[16..]);
      ChainedAppend(iv, c, rest);
    }
  }

  lemma ChainedAppend(iv: Block, c: Block, rest: seq<bv8>)
    requires |rest| % 16 == 0
    ensures Chained(iv, c + rest) == Chained(c, rest)
  {
    if rest == [] {
      assert c + rest == c;
    }
  }

  lemma {:induction false} CbcDecryptSplit(w: seq<bv8>, iv: Block, c: seq<bv8>, d: seq<bv8>)
    requires |w| == 240 && |c| % 16 == 0 && |d| % 16 == 0
    ensures CbcDecrypt(w, iv, c + d) == CbcDecrypt(w, iv, c) + CbcDecrypt(w, Chained(iv, c), d)
    decreases |c|
  {
    hide Decrypt, XorBlocks;
    if c == [] {
      assert c + d == d;
    } else {
      assert (c + d)[..16] == c[..16] && (c + d)[16..] == c[16..] + d;
      CbcDecryptSplit(w, c[..16], c[16..], d);
      assert c == c[..16] + c[16..];
      ChainedAppend(iv, c[..16], c[16..]);
    }
  }

  // ----- any number of calls -----

  function Sum(ns: seq<nat>): nat {
    if ns == [] then 0 else Sum(ns[..|ns| - 1]) + ns[|ns| - 1]
  }

  /** Lengths of whole blocks. */
  predicate Blocks(ns: seq<nat>) {
    forall i :: 0 <= i < |ns| ==> ns[i] % 16 == 0
  }

  lemma {:induction false} SumOfBlocks(ns: seq<nat>)
    requires Blocks(ns)
    ensures Sum(ns) % 16 == 0
  {
    if ns != [] {
      SumOfBlocks(ns[..|ns| - 1]);
    }
  }

  lemma {:induction false} SumGrows(ns: seq<nat>, k: nat)
    requires k <= |ns|
    ensures Sum(ns[..k]) <= Sum(ns) && (k < |ns| ==> Sum(ns[..k + 1]) == Sum(ns[..k]) + ns[k])
    decreases |ns| - k
  {
    if k == |ns| {
      assert ns[..k] == ns;
    } else {
      assert ns[..k + 1][..k] == ns[..k];
      SumGrows(ns, k + 1);
    }
  }

  /** A further call adds its part of the buffer. */
  lemma NextCall(w: seq<bv8>, iv: Block, b: seq<bv8>, m: nat, n: nat)
    requires |w| == 240 && m % 16 == 0 == n % 16 && m + n <= |b|
    ensures var c := CbcEncrypt(w, iv, b[..m]);
      CbcEncrypt(w, iv, b[..m + n])
      == c + CbcEncrypt(w, Chained(iv, c), b[m..m + n])
    ensures CbcDecrypt(w, iv, b[..m + n]) == CbcDecrypt(w, iv, b[..m]) + CbcDecrypt(w, Chained(iv, b[..m]), b[m..m + n])
    ensures var c := CbcEncrypt(w, iv, b[..m]); var d := CbcEncrypt(w, Chained(iv, c), b[m..m + n]);
      Chained(iv, c + d) == Chained(Chained(iv, c), d)
    ensures Chained(iv, b[..m + n]) == Chained(Chained(iv, b[..m]), b[m..m + n])
  {
    assert b[..m + n] == b[..m] + b[m..m + n];
    CbcEncryptSplit(w, iv, b[..m], b[m..m + n]);
    CbcDecryptSplit(w, iv, b[..m], b[m..m + n]);
    var c := CbcEncrypt(w, iv, b[..m]);
    ChainedTwice(iv, c, CbcEncrypt(w, Chained(iv, c), b[m..m + n]));
    ChainedTwice(iv, b[..m], b[m..m + n]);
  }

  lemma ChainedTwice(iv: Block, c: seq<bv8>, d: seq<bv8>)
    requires |c| % 16 == 0 == |d| % 16
    ensures Chained(iv, c + d) == Chained(Chained(iv, c), d)
  {
    if d == [] {
      assert c + d == c;
    }
  }

  // ----- counter mode -----

  /** The counter plus one: a byte of 255 becomes 0 and carries. */
  function Inc(s: seq<bv8>): (r: seq<bv8>)
    ensures |r| == |s|
  {
    if s == [] then [] else
    var n := |s| - 1;
    if s[n] == 255 then Inc(s[..n]) + [0] else s[..n] + [s[n] + 1]
  }

  /** The counter's value, the first byte being the most significant. */
  function Value(s: seq<bv8>): nat {
    if s == [] then 0 else 256 * Value(s[..|s| - 1]) + s[|s| - 1] as nat
  }

  function Pow256(n: nat): (p: nat)
    ensures p > 0
  {
    if n == 0 then 1 else 256 * Pow256(n - 1)
  }

  lemma {:induction false} ValueBound(s: seq<bv8>)
    ensures Value(s) < Pow256(|s|)
  {
    if s != [] {
      ValueBound(s[..|s| - 1]);
      ByteBound(s[|s| - 1]);
    }
  }

  lemma ByteBound(b: bv8)
    ensures b as nat < 256 && (b == 255 <==> b as nat == 255) && (b != 255 ==> (b + 1) as nat == b as nat + 1)
  {
  }

  /** The carry loop adds one, modulo the number of counters. */
  lemma {:induction false} IncValue(s: seq<bv8>)
    ensures Value(Inc(s)) == (Value(s) + 1) % Pow256(|s|)
  {
    if s != [] {
      var n := |s| - 1;
      ByteBound(s[n]);
      ValueBound(s[..n]);
      if s[n] == 255 {
        IncValue(s[..n]);
        assert (Inc(s[..n]) + [0])[..n] == Inc(s[..n]);
        CarryMod(Value(s[..n]), Pow256(n));
      } else {
        assert (s[..n] + [s[n] + 1])[..n] == s[..n];
        SmallSum(Value(s[..n]), s[n] as nat, Pow256(n));
      }
    }
  }

  lemma CarryMod(v: nat, m: nat)
    requires 0 < m && v < m
    ensures 256 * ((v + 1) % m) == (256 * v + 255 + 1) % (256 * m)
  {
    var big := 256 * m;
    if v + 1 == m {
      ModUnique(1, 0, m);
      ModUnique(1, 0, big);
    } else {
      SmallMod(v + 1, m);
      SmallMod(256 * v + 256, big);
    }
  }

  lemma SmallSum(v: nat, b: nat, m: nat)
    requires v < m && b < 255
    ensures 256 * v + b + 1 == (256 * v + b + 1) % (256 * m)
  {
    SmallMod(256 * v + b + 1, 256 * m);
  }

  /** The counter after n blocks. */
  function Counter(iv: Block, n: nat): Block {
    if n == 0 then iv else Inc(Counter(iv, n - 1))
  }

  /** The n-th counter is the first plus n, modulo 2^128. */
  lemma {:induction false} CounterValue(iv: Block, n: nat)
    ensures Value(Counter(iv, n)) == (Value(iv) + n) % Pow256(16)
  {
    hide Value, Pow256, Inc;
    if n == 0 {
      ValueBound(iv);
    } else {
      CounterValue(iv, n - 1);
      IncValue(Counter(iv, n - 1));
      Advance(Value(Counter(iv, n - 1)), Value(iv) + n - 1, Pow256(16));
    }
  }

  lemma Advance(x: nat, v: nat, m: nat)
    requires 0 < m && x == v % m
    ensures (x + 1) % m == (v + 1) % m
  {
    SmallMod(x, m);
    NextMod(x, v, m);
  }

  lemma {:induction false} CounterSum(iv: Block, m: nat, n: nat)
    ensures Counter(Counter(iv, m), n) == Counter(iv, m + n)
  {
    if n > 0 {
      CounterSum(iv, m, n - 1);
    }
  }

  /** Byte k of the key stream: the counters are encrypted one after the other. */
  function KeyStream(w: seq<bv8>, iv: Block, k: nat): bv8
    requires |w| == 240
  {
    Encrypt(Counter(iv, k / 16), w)[k % 16]
  }

  function CtrCrypt(w: seq<bv8>, iv: Block, p: seq<bv8>): (c: seq<bv8>)
    requires |w| == 240
    ensures |c| == |p|
  {
    seq(|p|, k requires 0 <= k < |p| => Xor(p[k], KeyStream(w, iv, k)))
  }

  /** Encryption is its own inverse, for any number of bytes. */
  lemma CtrRoundTrip(w: seq<bv8>, iv: Block, p: seq<bv8>)
    requires |w| == 240
    ensures CtrCrypt(w, iv, CtrCrypt(w, iv, p)) == p
  {
    hide Xor, KeyStream;
    forall k | 0 <= k < |p| ensures CtrCrypt(w, iv, CtrCrypt(w, iv, p))[k] == p[k] {
      XorAgain(p[k], KeyStream(w, iv, k));
    }
  }

  /** How many counters n bytes use. */
  function CountersFor(n: nat): nat {
    (n + 15) / 16
  }

  /** Splitting after whole blocks changes neither the output nor the counter that is left. */
  lemma CtrSplit(w: seq<bv8>, iv: Block, p: seq<bv8>, q: seq<bv8>)
    requires |w| == 240 && |p| % 16 == 0
    ensures var next := Counter(iv, CountersFor(|p|));
      && CtrCrypt(w, iv, p + q) == CtrCrypt(w, iv, p) + CtrCrypt(w, next, q)
      && Counter(iv, CountersFor(|p + q|)) == Counter(next, CountersFor(|q|))
  {
    hide Xor, KeyStream, Counter;
    var m := |p| / 16;
    assert CountersFor(|p|) == m && CountersFor(|p + q|) == m + CountersFor(|q|);
    CounterSum(iv, m, CountersFor(|q|));
    forall k | 0 <= k < |q| ensures KeyStream(w, iv, |p| + k) == KeyStream(w, Counter(iv, m), k) {
      KeyStreamLater(w, iv, m, k);
    }
  }

  lemma KeyStreamLater(w: seq<bv8>, iv: Block, m: nat, k: nat)
    requires |w| == 240
    ensures KeyStream(w, iv, 16 * m + k) == KeyStream(w, Counter(iv, m), k)
  {
    hide Encrypt, Counter;
    CounterSum(iv, m, k / 16);
    assert (16 * m + k) / 16 == m + k / 16 && (16 * m + k) % 16 == k % 16;
  }

  // ----- the code -----

  /** One more block of ciphertext. */
  lemma CbcEncryptNext(w: seq<bv8>, iv: Block, p: seq<bv8>, i: nat)
    requires |w| == 240 && i % 16 == 0 && i + 16 <= |p|
    ensures var c := CbcEncrypt(w, iv, p[..i]); var d := Encrypt(XorBlocks(p[i..i + 16], Chained(iv, c)), w);
      CbcEncrypt(w, iv, p[..i + 16]) == c + d && Chained(iv, c + d) == d
  {
    hide Encrypt, XorBlocks;
    var q := p[i..i + 16];
    assert p[..i + 16] == p[..i] + q;
    CbcEncryptSplit(w, iv, p[..i], q);
    var c := CbcEncrypt(w, iv, p[..i]);
    OneBlock(w, Chained(iv, c), q);
  }

  lemma OneBlock(w: seq<bv8>, iv: Block, q: Block)
    requires |w| == 240
    ensures CbcEncrypt(w, iv, q) == Encrypt(XorBlocks(q, iv), w) && CbcDecrypt(w, iv, q) == XorBlocks(Decrypt(q, w), iv)
  {
    hide Encrypt, Decrypt, XorBlocks;
    assert q[..16] == q && q[16..] == [];
  }

  lemma CbcDecryptNext(w: seq<bv8>, iv: Block, c: seq<bv8>, i: nat)
    requires |w| == 240 && i % 16 == 0 && i + 16 <= |c|
    ensures CbcDecrypt(w, iv, c[..i + 16]) == CbcDecrypt(w, iv, c[..i])
        + XorBlocks(Decrypt(c[i..i + 16], w), Chained(iv, c[..i]))
    ensures Chained(iv, c[..i + 16]) == c[i..i + 16]
  {
    hide Decrypt, XorBlocks;
    var q := c[i..i + 16];
    assert c[..i + 16] == c[..i] + q;
    CbcDecryptSplit(w, iv, c[..i], q);
    OneBlock(w, Chained(iv, c[..i]), q);
  }

  /** The first i bytes from `from` on are done. */
  ghost predicate DoneTo(before: seq<bv8>, now: seq<bv8>, from: nat, done: seq<bv8>) {
    |now| == |before| && from + |done| <= |before| && now == before[..from] + done + before[from + |done|..]
  }

  lemma DoneNext(before: seq<bv8>, now: seq<bv8>, from: nat, done: seq<bv8>, d: Block)
    requires DoneTo(before, now, from, done) && from + |done| + 16 <= |before|
    ensures DoneTo(before, Spliced(now, from + |done|, d), from, done + d)
    ensures BlockAt(now, from + |done|) == before[from + |done|..from + |done| + 16]
  {
  }

  lemma DoneLast(before: seq<bv8>, now: seq<bv8>, from: nat, done: seq<bv8>)
    requires DoneTo(before, now, from, done) && 16 <= |done|
    ensures BlockAt(now, from + |done| - 16) == done[|done| - 16..]
  {
  }

  class AesContext {
    const roundKey: array<bv8>
    const iv: array<bv8>

    /** Expands the key and sets the vector. */
    constructor (key: seq<bv8>, first: Block)
      requires |key| == 32
      ensures Valid() && roundKey[..] == Expanded(key) && iv[..] == first && fresh(roundKey) && fresh(iv)
    {
      roundKey := new bv8[240](_ => 0);
      iv := new bv8[16](_ => 0);
      new;
      KeyExpansion(roundKey, key);
      SetIv(first);
    }

    predicate Valid() {
      roundKey.Length == 240 && iv.Length == 16 && roundKey != iv
    }

    lemma Sizes()
      requires Valid()
      ensures roundKey.Length == 240 && iv.Length == 16 && roundKey != iv
    {
    }

    method SetIv(v: Block)
      requires Valid()
      modifies iv
      ensures iv[..] == v
    {
      forall i | 0 <= i < 16 {
        iv[i] := v[i];
      }
    }

    /** Adds the block that `vector` holds at p; it may be the block before in the buffer itself. */
    method XorWithIv(buf: array<bv8>, at: nat, vector: array<bv8>, p: nat)
      requires at + 16 <= buf.Length && p + 16 <= vector.Length && (vector == buf ==> p + 16 <= at)
      modifies buf
      ensures buf[..] == Spliced(old(buf[..]), at, XorBlocks(BlockAt(old(buf[..]), at), old(BlockAt(vector[..], p))))
    {
      hide Xor;
      ghost var b, v := buf[..], vector[..];
      for i := 0 to 16
        invariant forall k :: 0 <= k < buf.Length ==> buf[k] == if at <= k < at + i then Xor(b[k], v[p + (k - at)])
            else b[k]
        invariant forall k :: p <= k < p + 16 ==> vector[k] == v[k]
      {
        buf[at + i] := Xor(buf[at + i], vector[p + i]);
      }
      ByElements(b, at, XorBlocks(BlockAt(b, at), BlockAt(v, p)), buf[..]);
    }

    /** Encrypts part of a buffer. The vector is first the context's own, and then the block of ciphertext before. */
    method CbcEncryptBuffer(buf: array<bv8>, from: nat, length: nat)
      requires Valid() && buf != roundKey && buf != iv && from + length <= buf.Length && length % 16 == 0
      requires length < 0x1_0000_0000
      modifies buf, iv
      ensures var c := CbcEncrypt(roundKey[..], old(iv[..]), old(buf[from..from + length]));
        && buf[..] == old(buf[..from]) + c + old(buf[from + length..])
        && iv[..] == Chained(old(iv[..]), c)
    {
      hide *;
      Sizes();
      ghost var b, w, iv0 := buf[..], roundKey[..], iv[..];
      ghost var p := b[from..from + length];
      var vector, at, i: nat := iv, 0, 0;
      ghost var done: seq<bv8> := [];
      CbcStart(w, iv0, b, from, p);
      while i < length
        invariant i <= length && i % 16 == 0 && |done| == i && done == CbcEncrypt(w, iv0, p[..i])
        invariant DoneTo(b, buf[..], from, done) && iv[..] == iv0
        invariant (i == 0 && vector == iv && at == 0) || (i > 0 && vector == buf && at == from + i - 16)
        invariant vector[at..at + 16] == Chained(iv0, done)
      {
        NextBlockFits(i, length);
        CbcEncryptNext(w, iv0, p, i);
        PieceOf(b, from, length, i);
        EncryptBlock(buf, from + i, vector, at, b, from, done, iv0);
        done := done + Encrypt(XorBlocks(p[i..i + 16], Chained(iv0, done)), w);
        vector, at := buf, from + i;
        i := i + 16;
        DoneLast(b, buf[..], from, done);
        LastBlock(iv0, done, buf[..], from);
        assert buf[..][at..at + 16] == buf[at..at + 16];
      }
      Memcpy(vector, at);
      CbcWhole(w, iv0, b, buf[..], from, length, p, done);
    }

    /** Adds the vector to a block and encrypts it. */
    method EncryptBlock(buf: array<bv8>, at: nat, vector: array<bv8>, p: nat, ghost b: seq<bv8>, ghost from: nat,
                        ghost done: seq<bv8>, ghost iv0: Block)
      requires Valid() && buf != roundKey && at + 16 <= buf.Length && p + 16 <= vector.Length
      requires (vector == buf ==> p + 16 <= at)
      requires DoneTo(b, buf[..], from, done) && at == from + |done| && at + 16 <= |b|
      requires vector[p..p + 16] == Chained(iv0, done)
      modifies buf
      ensures DoneTo(b, buf[..], from, done + Encrypt(XorBlocks(b[at..at + 16], Chained(iv0, done)), roundKey[..]))
    {
      hide *;
      Sizes();
      ghost var now, v := buf[..], vector[..];
      ghost var chained: Block := Chained(iv0, done);
      ghost var q: Block := b[at..at + 16];
      VectorIs(v, p, chained, vector[p..p + 16]);
      DoneNext(b, now, from, done, Encrypt(XorBlocks(q, chained), roundKey[..]));
      XorWithIv(buf, at, vector, p);
      Again(now, at, XorBlocks(q, chained));
      Cipher(buf, at, roundKey);
    }

    /** Stores the vector for the next call. */
    method Memcpy(vector: array<bv8>, at: nat)
      requires Valid() && at + 16 <= vector.Length && (vector == iv ==> at == 0)
      modifies iv
      ensures iv[..] == old(vector[at..at + 16])
    {
      forall i | 0 <= i < 16 {
        iv[i] := vector[at + i];
      }
    }

    /** Decrypts part of a buffer. */
    method CbcDecryptBuffer(buf: array<bv8>, from: nat, length: nat)
      requires Valid() && buf != roundKey && buf != iv && from + length <= buf.Length && length % 16 == 0
      requires length < 0x1_0000_0000
      modifies buf, iv
      ensures var c := old(buf[from..from + length]);
        && buf[..] == old(buf[..from]) + CbcDecrypt(roundKey[..], old(iv[..]), c) + old(buf[from + length..])
        && iv[..] == Chained(old(iv[..]), c)
    {
      hide *;
      Sizes();
      ghost var b, w, iv0 := buf[..], roundKey[..], iv[..];
      ghost var c := b[from..from + length];
      var storeNextIv := new bv8[16];
      var i: nat := 0;
      ghost var done: seq<bv8> := [];
      CbcStart(w, iv0, b, from, c);
      while i < length
        invariant i <= length && i % 16 == 0 && |done| == i && done == CbcDecrypt(w, iv0, c[..i])
        invariant DoneTo(b, buf[..], from, done) && iv[..] == Chained(iv0, c[..i])
      {
        NextBlockFits(i, length);
        ghost var now := buf[..];
        ghost var chained: Block := Chained(iv0, c[..i]);
        CbcDecryptNext(w, iv0, c, i);
        ghost var q: Block := b[from + i..from + i + 16];
        PieceOf(b, from, length, i);
        DoneNext(b, now, from, done, XorBlocks(Decrypt(q, w), chained));
        Store(storeNextIv, buf, from + i);
        InvCipher(buf, from + i, roundKey);
        Again(now, from + i, Decrypt(q, w));
        VectorIs(iv[..], 0, chained, iv[..]);
        XorWithIv(buf, from + i, iv, 0);
        Memcpy(storeNextIv, 0);
        done := done + XorBlocks(Decrypt(q, w), chained);
        i := i + 16;
      }
      AllDone(b, buf[..], from, length, done);
      assert c[..length] == c;
    }

    /** The bytes after bi were 255 and are 0, the others are as they were. */
    ghost predicate Carrying(s: seq<bv8>, bi: int)
      requires Valid()
      reads iv
    {
      && |s| == 16 && -1 <= bi <= 15 && iv[..] == s[..bi + 1] + Zeros(15 - bi)
      && forall k :: bi < k < 16 ==> s[k] == 255
    }

    lemma CarryStarts(s: seq<bv8>)
      requires Valid() && s == iv[..]
      ensures Carrying(s, 15)
    {
    }

    /** A byte of 255 becomes 0 and passes the carry on. */
    method CarryOn(bi: nat, ghost s: seq<bv8>)
      requires Valid() && Carrying(s, bi) && s[bi] == 255
      modifies iv
      ensures Carrying(s, bi - 1)
    {
      iv[bi] := 0;
      assert iv[..] == (s[..bi + 1] + Zeros(15 - bi))[bi := 0];
    }

    /** Another byte takes the carry. */
    method CarryInto(bi: nat, ghost s: seq<bv8>)
      requires Valid() && Carrying(s, bi) && s[bi] != 255
      modifies iv
      ensures iv[..] == Inc(s)
    {
      hide Inc;
      iv[bi] := iv[bi] + 1;
      assert iv[..] == (s[..bi + 1] + Zeros(15 - bi))[bi := s[bi] + 1];
      Carries(s, bi + 1);
    }

    lemma CarryByte(s: seq<bv8>, bi: nat)
      requires Valid() && Carrying(s, bi)
      ensures bi < 16 == |s| && iv[bi] == s[bi]
    {
    }

    lemma CarryOut(s: seq<bv8>)
      requires Valid() && Carrying(s, -1)
      ensures iv[..] == Inc(s)
    {
      hide Inc;
      Carries(s, 0);
    }

    /** Adds one to the counter: from the last byte on, bytes of 255 become 0 until one takes the carry. */
    method Increment()
      requires Valid()
      modifies iv
      ensures iv[..] == Inc(old(iv[..]))
    {
      hide *;
      Sizes();
      ghost var s := iv[..];
      CarryStarts(s);
      var bi: int := 15;
      while bi >= 0
        invariant -1 <= bi <= 15 && Carrying(s, bi)
        decreases bi
      {
        CarryByte(s, bi);
        if iv[bi] == 255 {
          CarryOn(bi, s);
          bi := bi - 1;
          continue;
        }
        CarryInto(bi, s);
        return;
      }
      CarryOut(s);
    }

    /** Encrypts or decrypts part of a buffer. Every call starts with a new counter. */
    method CtrXcryptBuffer(buf: array<bv8>, from: nat, length: nat)
      requires Valid() && buf != roundKey && buf != iv && from + length <= buf.Length && length < 0x1_0000_0000
      modifies buf, iv
      ensures buf[..] == old(buf[..from]) + CtrCrypt(roundKey[..], old(iv[..]), old(buf[from..from + length]))
          + old(buf[from + length..])
      ensures iv[..] == Counter(old(iv[..]), CountersFor(length))
    {
      hide *;
      Sizes();
      ghost var b, w, iv0 := buf[..], roundKey[..], iv[..];
      ghost var p := b[from..from + length];
      var buffer := new bv8[16];
      var i: nat, bi: nat := 0, 16;
      CtrStart(w, iv0, b, from, p);
      while i < length
        invariant i <= length && bi == Offset(i) && iv[..] == Counter(iv0, CountersFor(i))
        invariant bi < 16 ==> buffer[..] == Encrypt(Counter(iv0, i / 16), w)
        invariant DoneTo(b, buf[..], from, CtrCrypt(w, iv0, p[..i]))
      {
        Offsets(i);
        ghost var done := CtrCrypt(w, iv0, p[..i]);
        if bi == 16 {
          Store(buffer, iv, 0);
          NewCounter(iv0, i);
          ghost var block := buffer[..];
          VectorIs(iv[..], 0, iv[..], iv[..]);
          assert buffer[0..16] == buffer[..];
          WholeBlock(block, Encrypt(block, w));
          Cipher(buffer, 0, roundKey);
          Increment();
          bi := 0;
        }
        ghost var now := buf[..];
        CtrNext(w, iv0, p, i, buffer[..]);
        ByteNext(b, now, from, done, Xor(p[i], buffer[bi]));
        PieceByte(b, from, length, i);
        buf[from + i] := Xor(buf[from + i], buffer[bi]);
        assert buf[..] == now[from + i := Xor(p[i], buffer[bi])];
        i, bi := i + 1, bi + 1;
      }
      AllDone(b, buf[..], from, length, CtrCrypt(w, iv0, p[..i]));
      assert p[..length] == p;
    }

    method Store(to: array<bv8>, buf: array<bv8>, at: nat)
      requires to.Length == 16 && at + 16 <= buf.Length && to != buf
      modifies to
      ensures to[0..16] == BlockAt(buf[..], at)
    {
      forall i | 0 <= i < 16 {
        to[i] := buf[at + i];
      }
    }
  }

  lemma CbcStart(w: seq<bv8>, iv: Block, b: seq<bv8>, from: nat, p: seq<bv8>)
    requires |w| == 240 && from <= |b|
    ensures DoneTo(b, b, from, []) && CbcEncrypt(w, iv, p[..0]) == [] == CbcDecrypt(w, iv, p[..0])
    ensures Chained(iv, []) == iv == iv[0..16] == Chained(iv, p[..0])
  {
  }

  lemma NextBlockFits(i: nat, length: nat)
    requires i < length && i % 16 == 0 == length % 16
    ensures i + 16 <= length && (i + 16) % 16 == 0
  {
  }

  lemma VectorIs(v: seq<bv8>, at: nat, s: Block, slice: seq<bv8>)
    requires at + 16 <= |v| && slice == s && (slice == v[at..at + 16] || (at == 0 && slice == v))
    ensures BlockAt(v, at) == s
  {
  }

  lemma PieceOf(b: seq<bv8>, from: nat, length: nat, i: nat)
    requires from + length <= |b| && i + 16 <= length
    ensures b[from..from + length][i..i + 16] == b[from + i..from + i + 16]
  {
    var c, d := b[from..from + length][i..i + 16], b[from + i..from + i + 16];
    forall k | 0 <= k < 16 ensures c[k] == d[k] {
      assert c[k] == b[from..from + length][i + k];
    }
    assert |c| == |d|;
  }

  lemma LastBlock(iv: Block, done: seq<bv8>, now: seq<bv8>, from: nat)
    requires |done| >= 16 && from + |done| <= |now| && BlockAt(now, from + |done| - 16) == done[|done| - 16..]
    ensures now[from + |done| - 16..from + |done|] == Chained(iv, done)
  {
  }

  /** The whole part of the buffer has been encrypted. */
  lemma CbcWhole(w: seq<bv8>, iv0: Block, b: seq<bv8>, now: seq<bv8>, from: nat, length: nat, p: seq<bv8>,
                 done: seq<bv8>)
    requires |w| == 240 && from + length <= |b| && p == b[from..from + length] && length % 16 == 0
    requires done == CbcEncrypt(w, iv0, p[..length]) && |done| == length && DoneTo(b, now, from, done)
    ensures done == CbcEncrypt(w, iv0, p) && now == b[..from] + done + b[from + length..]
  {
    hide CbcEncrypt;
    AllDone(b, now, from, length, done);
    assert p[..length] == p;
  }

  lemma AllDone(b: seq<bv8>, now: seq<bv8>, from: nat, length: nat, done: seq<bv8>)
    requires DoneTo(b, now, from, done) && |done| == length
    ensures now == b[..from] + done + b[from + length..]
  {
  }

  function Zeros(n: nat): (z: seq<bv8>)
    ensures |z| == n
  {
    seq(n, _ => 0)
  }

  /** The bytes from n on are 255 and become 0; the byte before takes the carry. */
  lemma {:induction false} Carries(s: seq<bv8>, n: nat)
    requires n <= |s| && (forall k :: n <= k < |s| ==> s[k] == 255) && (n > 0 ==> s[n - 1] != 255)
    ensures Inc(s) == if n == 0 then Zeros(|s|) else s[..n - 1] + [s[n - 1] + 1] + Zeros(|s| - n)
    decreases |s|
  {
    if n < |s| {
      var t := s[..|s| - 1];
      Carries(t, n);
      assert Zeros(|s|) == Zeros(|t|) + [0] && Zeros(|s| - n) == Zeros(|t| - n) + [0];
      assert n > 0 ==> t[..n - 1] == s[..n - 1];
    }
  }

  /** Where byte i lies in its block; 16 stands for the start of the next one. */
  function Offset(i: nat): nat {
    if i % 16 == 0 then 16 else i % 16
  }

  lemma Offsets(i: nat)
    ensures Offset(i) <= 16
    ensures (Offset(i) == 16 ==> CountersFor(i) == i / 16 && i % 16 == 0 && CountersFor(i + 1) == i / 16 + 1)
    ensures Offset(i) < 16 ==> Offset(i) == i % 16 && CountersFor(i) == CountersFor(i + 1) == i / 16 + 1
    ensures Offset(i + 1) == i % 16 + 1 && (Offset(i + 1) < 16 ==> (i + 1) / 16 == i / 16)
  {
  }

  lemma CtrStart(w: seq<bv8>, iv: Block, b: seq<bv8>, from: nat, p: seq<bv8>)
    requires |w| == 240 && from <= |b|
    ensures DoneTo(b, b, from, CtrCrypt(w, iv, p[..0])) && iv == Counter(iv, CountersFor(0)) && Offset(0) == 16
  {
    hide KeyStream;
    assert CtrCrypt(w, iv, p[..0]) == [];
  }

  lemma NewCounter(iv: Block, i: nat)
    requires CountersFor(i) == i / 16
    ensures Counter(iv, i / 16 + 1) == Inc(Counter(iv, CountersFor(i)))
  {
    hide Inc;
  }

  lemma WholeBlock(b: Block, s: Block)
    ensures BlockAt(b, 0) == b && Spliced(b, 0, s) == s
  {
  }

  lemma CtrNext(w: seq<bv8>, iv: Block, p: seq<bv8>, i: nat, buffer: seq<bv8>)
    requires |w| == 240 && i < |p| && buffer == Encrypt(Counter(iv, i / 16), w)
    ensures CtrCrypt(w, iv, p[..i + 1]) == CtrCrypt(w, iv, p[..i]) + [Xor(p[i], buffer[i % 16])]
  {
    hide Xor, Encrypt, Counter;
  }

  lemma ByteNext(before: seq<bv8>, now: seq<bv8>, from: nat, done: seq<bv8>, c: bv8)
    requires DoneTo(before, now, from, done) && from + |done| < |before|
    ensures DoneTo(before, now[from + |done| := c], from, done + [c]) && now[from + |done|] == before[from + |done|]
  {
  }

  lemma PieceByte(b: seq<bv8>, from: nat, length: nat, i: nat)
    requires from + length <= |b| && i < length
    ensures b[from..from + length][i] == b[from + i]
  {
  }

  /** The buffer when the first m bytes have become c. */
  ghost predicate Changed(b: seq<bv8>, now: seq<bv8>, m: nat, c: seq<bv8>) {
    m <= |b| == |now| && |c| == m && now == c + b[m..]
  }

  lemma ChangedNext(b: seq<bv8>, now: seq<bv8>, m: nat, c: seq<bv8>, n: nat, d: seq<bv8>, after: seq<bv8>)
    requires Changed(b, now, m, c) && m + n <= |b| && |d| == n && after == now[..m] + d + now[m + n..]
    ensures Changed(b, after, m + n, c + d) && now[m..m + n] == b[m..m + n]
  {
    assert now[..m] == c && now[m + n..] == b[m + n..];
  }

  /** One of the calls. */
  method EncryptCall(ctx: AesContext, buf: array<bv8>, ghost b: seq<bv8>, ghost iv0: Block, m: nat, n: nat)
    requires ctx.Valid() && buf != ctx.roundKey && buf != ctx.iv && m % 16 == 0 == n % 16
    requires m + n <= buf.Length == |b| < 0x1_0000_0000
    requires ctx.roundKey.Length == 240 && ctx.iv.Length == 16
    requires Changed(b, buf[..], m, CbcEncrypt(ctx.roundKey[..], iv0, b[..m]))
    requires ctx.iv[..] == Chained(iv0, CbcEncrypt(ctx.roundKey[..], iv0, b[..m]))
    modifies buf, ctx.iv
    ensures Changed(b, buf[..], m + n, CbcEncrypt(ctx.roundKey[..], iv0, b[..m + n]))
    ensures ctx.iv[..] == Chained(iv0, CbcEncrypt(ctx.roundKey[..], iv0, b[..m + n]))
  {
    hide *;
    ghost var w, now := ctx.roundKey[..], buf[..];
    ghost var c := CbcEncrypt(w, iv0, b[..m]);
    ghost var d := CbcEncrypt(w, Chained(iv0, c), b[m..m + n]);
    NextCall(w, iv0, b, m, n);
    Slices(buf, m, n);
    ChangedNext(b, now, m, c, n, d, now[..m] + d + now[m + n..]);
    ctx.CbcEncryptBuffer(buf, m, n);
  }

  /** Encrypts a buffer in several calls: the result is that of one call. */
  method CbcEncryptCalls(ctx: AesContext, buf: array<bv8>, lengths: seq<nat>)
    requires ctx.Valid() && buf != ctx.roundKey && buf != ctx.iv && Blocks(lengths)
    requires Sum(lengths) == buf.Length < 0x1_0000_0000
    modifies buf, ctx.iv
    ensures buf.Length % 16 == 0 && buf[..] == CbcEncrypt(ctx.roundKey[..], old(ctx.iv[..]), old(buf[..]))
  {
    hide *;
    ctx.Sizes();
    ghost var b, w, iv0 := buf[..], ctx.roundKey[..], ctx.iv[..];
    var m: nat := 0;
    CallsStart(b, iv0, w);
    CallsWhole(lengths);
    for k := 0 to |lengths|
      invariant m == Sum(lengths[..k]) && m % 16 == 0 && m <= buf.Length
      invariant Changed(b, buf[..], m, CbcEncrypt(w, iv0, b[..m]))
      invariant ctx.iv[..] == Chained(iv0, CbcEncrypt(w, iv0, b[..m]))
    {
      CallFits(lengths, k, m);
      EncryptCall(ctx, buf, b, iv0, m, lengths[k]);
      m := m + lengths[k];
    }
    CallsEnd(b, buf[..], m, CbcEncrypt(w, iv0, b[..m]));
  }

  /** One of the calls. */
  method DecryptCall(ctx: AesContext, buf: array<bv8>, ghost b: seq<bv8>, ghost iv0: Block, m: nat, n: nat)
    requires ctx.Valid() && buf != ctx.roundKey && buf != ctx.iv && m % 16 == 0 == n % 16
    requires m + n <= buf.Length == |b| < 0x1_0000_0000
    requires ctx.roundKey.Length == 240 && ctx.iv.Length == 16
    requires Changed(b, buf[..], m, CbcDecrypt(ctx.roundKey[..], iv0, b[..m]))
    requires ctx.iv[..] == Chained(iv0, b[..m])
    modifies buf, ctx.iv
    ensures Changed(b, buf[..], m + n, CbcDecrypt(ctx.roundKey[..], iv0, b[..m + n]))
    ensures ctx.iv[..] == Chained(iv0, b[..m + n])
  {
    hide *;
    ghost var w, now := ctx.roundKey[..], buf[..];
    ghost var c := CbcDecrypt(w, iv0, b[..m]);
    ghost var d := CbcDecrypt(w, Chained(iv0, b[..m]), b[m..m + n]);
    NextCall(w, iv0, b, m, n);
    Slices(buf, m, n);
    ChangedNext(b, now, m, c, n, d, now[..m] + d + now[m + n..]);
    ctx.CbcDecryptBuffer(buf, m, n);
  }

  /** Decrypts a buffer in several calls. */
  method CbcDecryptCalls(ctx: AesContext, buf: array<bv8>, lengths: seq<nat>)
    requires ctx.Valid() && buf != ctx.roundKey && buf != ctx.iv && Blocks(lengths)
    requires Sum(lengths) == buf.Length < 0x1_0000_0000
    modifies buf, ctx.iv
    ensures buf.Length % 16 == 0 && buf[..] == CbcDecrypt(ctx.roundKey[..], old(ctx.iv[..]), old(buf[..]))
  {
    hide *;
    ctx.Sizes();
    ghost var b, w, iv0 := buf[..], ctx.roundKey[..], ctx.iv[..];
    var m: nat := 0;
    CallsStart(b, iv0, w);
    CallsWhole(lengths);
    for k := 0 to |lengths|
      invariant m == Sum(lengths[..k]) && m % 16 == 0 && m <= buf.Length
      invariant Changed(b, buf[..], m, CbcDecrypt(w, iv0, b[..m])) && ctx.iv[..] == Chained(iv0, b[..m])
    {
      CallFits(lengths, k, m);
      DecryptCall(ctx, buf, b, iv0, m, lengths[k]);
      m := m + lengths[k];
    }
    CallsEnd(b, buf[..], m, CbcDecrypt(w, iv0, b[..m]));
  }

  lemma Slices(buf: array<bv8>, m: nat, n: nat)
    requires m + n <= buf.Length
    ensures var now := buf[..]; buf[m..m + n] == now[m..m + n] && buf[..m] == now[..m] && buf[m + n..] == now[m + n..]
  {
  }

  lemma CallsStart(b: seq<bv8>, iv: Block, w: seq<bv8>)
    requires |w| == 240
    ensures b[..0] == [] && CbcEncrypt(w, iv, b[..0]) == [] == CbcDecrypt(w, iv, b[..0]) && Changed(b, b, 0, [])
    ensures Chained(iv, []) == iv
  {
  }

  lemma CallsWhole(lengths: seq<nat>)
    requires Blocks(lengths)
    ensures Sum(lengths[..0]) == 0 && lengths[..|lengths|] == lengths && Sum(lengths) % 16 == 0
  {
    SumOfBlocks(lengths);
  }

  lemma CallFits(lengths: seq<nat>, k: nat, m: nat)
    requires Blocks(lengths) && k < |lengths| && m == Sum(lengths[..k]) && m % 16 == 0
    ensures m + lengths[k] <= Sum(lengths) && lengths[k] % 16 == 0 && (m + lengths[k]) % 16 == 0
    ensures Sum(lengths[..k + 1]) == m + lengths[k]
  {
    SumGrows(lengths, k);
    SumGrows(lengths, k + 1);
  }

  lemma CallsEnd(b: seq<bv8>, now: seq<bv8>, m: nat, c: seq<bv8>)
    requires Changed(b, now, m, c) && m == |b|
    ensures now == c && b[..m] == b
  {
  }

  /** A buffer encrypted in some calls and decrypted in others is what it was. */
  method CbcThereAndBack(key: seq<bv8>, iv: Block, buf: array<bv8>, some: seq<nat>, others: seq<nat>)
    requires |key| == 32 && Blocks(some) && Blocks(others) && Sum(some) == Sum(others) == buf.Length < 0x1_0000_0000
    modifies buf
    ensures buf[..] == old(buf[..])
  {
    hide *;
    ghost var b := buf[..];
    var ctx := new AesContext(key, iv);
    ctx.Sizes();
    CbcEncryptCalls(ctx, buf, some);
    ctx.SetIv(iv);
    CbcDecryptCalls(ctx, buf, others);
    CbcRoundTrip(ctx.roundKey[..], iv, b);
  }
}
