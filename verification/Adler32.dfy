/** The Adler-32 checksum of RFC 1950 section 9, and its computation with deferred modulo. */
module Adler32 {
  import opened Bits

  const BASE := 65521
  const LIMIT := 0x1_0000_0000

  /** Both sums, each byte's effect reduced at once. */
  datatype Sums = Sums(s1: nat, s2: nat)

  function Step(s: Sums, b: byte): Sums {
    var s1 := (s.s1 + b) % BASE;
    Sums(s1, (s.s2 + s1) % BASE)
  }

  function Run(s: Sums, bytes: seq<byte>): Sums {
    if bytes == [] then s else Step(Run(s, bytes[..|bytes| - 1]), bytes[|bytes| - 1])
  }

  /** The sums packed into 32 bits. */
  function Pack(s: Sums): nat {
    s.s2 * 65536 + s.s1
  }

  function Unpack(a: nat): Sums {
    Sums(a % 65536, a / 65536)
  }

  /** The checksum of bytes, going on from checksum a. */
  function Adler(a: nat, bytes: seq<byte>): nat {
    Pack(Run(Unpack(a), bytes))
  }

  /** A checksum: both sums are reduced. */
  predicate Reduced(a: nat) {
    Unpack(a).s1 < BASE && Unpack(a).s2 < BASE
  }

  lemma PackUnpack(s: Sums)
    requires s.s1 < 65536
    ensures Unpack(Pack(s)) == s
  {
  }

  lemma {:induction false} RunReduced(s: Sums, bytes: seq<byte>)
    requires s.s1 < BASE && s.s2 < BASE
    ensures Run(s, bytes).s1 < BASE && Run(s, bytes).s2 < BASE
  {
    if bytes != [] {
      RunReduced(s, bytes[..|bytes| - 1]);
    }
  }

  lemma AdlerReduced(a: nat, bytes: seq<byte>)
    requires Reduced(a)
    ensures Reduced(Adler(a, bytes)) && Adler(a, bytes) < LIMIT
  {
    RunReduced(Unpack(a), bytes);
    PackUnpack(Run(Unpack(a), bytes));
  }

  lemma {:induction false} RunAppend(s: Sums, a: seq<byte>, b: seq<byte>)
    ensures Run(s, a + b) == Run(Run(s, a), b)
  {
    if b == [] {
      assert a + b == a;
    } else {
      var n := |b| - 1;
      RunAppend(s, a, b[..n]);
      assert (a + b)[..|a| + n] == a + b[..n];
    }
  }

  /** Checksums compose: the checksum of a concatenation goes on from the first part's. */
  lemma AdlerAppend(c: nat, a: seq<byte>, b: seq<byte>)
    requires Reduced(c)
    ensures Adler(c, a + b) == Adler(Adler(c, a), b)
  {
    RunAppend(Unpack(c), a, b);
    RunReduced(Unpack(c), a);
    PackUnpack(Run(Unpack(c), a));
  }

  // ----- what the two sums are -----

  /** The sum of the bytes. */
  function Total(bytes: seq<byte>): nat {
    if bytes == [] then 0 else bytes[0] as nat + Total(bytes[1..])
  }

  /** The sum of the bytes, each multiplied by the number of bytes from it to the end. */
  function Weighted(bytes: seq<byte>): nat {
    if bytes == [] then 0 else |bytes| * bytes[0] as nat + Weighted(bytes[1..])
  }

  lemma {:induction false} TotalsNext(bytes: seq<byte>, b: byte)
    ensures Total(bytes + [b]) == Total(bytes) + b as nat
    ensures Weighted(bytes + [b]) == Weighted(bytes) + Total(bytes) + b as nat
  {
    var more := bytes + [b];
    if bytes == [] {
      assert more == [b];
      assert more[1..] == [];
    } else {
      assert more[1..] == bytes[1..] + [b];
      TotalsNext(bytes[1..], b);
      Distribute(|bytes|, bytes[0] as nat);
    }
  }

  lemma Distribute(n: nat, x: nat)
    ensures (n + 1) * x == n * x + x
  {
  }

  /** Reducing at each step or at the end is the same. */
  lemma StepReduced(s1: nat, s2: nat, b: byte)
    ensures Step(Sums(s1 % 65521, s2 % 65521), b) == Sums((s1 + b) % 65521, (s2 + s1 + b) % 65521)
  {
    SumMod(s1 % 65521, s1, b);
    SumMod(s2 % 65521, s2, (s1 + b) % 65521);
    SumMod((s1 + b) % 65521, s1 + b, s2);
  }

  /** The checksum in closed form: the low half and the high half, each modulo the prime 65521. */
  lemma {:induction false} RunIs(bytes: seq<byte>)
    ensures Run(Sums(1, 0), bytes) == Sums((1 + Total(bytes)) % 65521, (|bytes| + Weighted(bytes)) % 65521)
  {
    if bytes != [] {
      var n := |bytes| - 1;
      var first, b := bytes[..n], bytes[n];
      assert bytes == first + [b];
      RunIs(first);
      TotalsNext(first, b);
      StepReduced(1 + Total(first), n + Weighted(first), b);
    }
  }

  lemma AdlerIs(bytes: seq<byte>)
    ensures Adler(1, bytes) == (|bytes| + Weighted(bytes)) % 65521 * 65536 + (1 + Total(bytes)) % 65521
  {
    RunIs(bytes);
  }

  // ----- deferred modulo -----

  /** The sums of a run of at most 5552 bytes without reduction stand for the reduced ones, and stay in 32 bits. */
  ghost predicate Deferred(start: Sums, bytes: seq<byte>, s1: nat, s2: nat) {
    && start.s1 < 65536 && start.s2 < 65536
    && SumsBound(|bytes|, s1, s2)
    && s1 % BASE == Run(start, bytes).s1 % BASE && s2 % BASE == Run(start, bytes).s2 % BASE
  }

  ghost predicate SumsBound(n: nat, s1: nat, s2: nat) {
    s1 <= 65535 + 255 * n && s2 <= 65535 + n * 65535 + Triangle(n) * 255
  }

  /** 1 + 2 + ... + n. */
  function Triangle(n: nat): nat {
    if n == 0 then 0 else Triangle(n - 1) + n
  }

  lemma {:induction false} TriangleIs(n: nat)
    ensures 2 * Triangle(n) == n * n + n
  {
    if n > 0 {
      TriangleIs(n - 1);
      assert n * n + n == (n - 1) * (n - 1) + (n - 1) + 2 * n;
    }
  }

  lemma {:induction false} TriangleMonotone(m: nat, n: nat)
    requires m <= n
    ensures Triangle(m) <= Triangle(n)
  {
    if m < n {
      TriangleMonotone(m, n - 1);
    }
  }

  lemma SumMod(a: nat, b: nat, x: nat)
    requires a % BASE == b % BASE
    ensures (a + x) % BASE == (b + x) % BASE
  {
    var q := a / BASE - b / BASE;
    assert a == BASE * (a / BASE) + a % BASE && b == BASE * (b / BASE) + b % BASE;
    assert a + x == b + x + BASE * q;
    ModShift(b + x, q);
  }

  lemma ModShift(v: int, q: int)
    ensures (v + BASE * q) % BASE == v % BASE
  {
    var d, r := v / BASE, v % BASE;
    assert v == BASE * d + r;
    assert v + BASE * q == BASE * (d + q) + r;
  }

  /** Adding a byte without reduction. */
  lemma DeferredNext(start: Sums, bytes: seq<byte>, s1: nat, s2: nat, b: byte)
    requires Deferred(start, bytes, s1, s2) && |bytes| < 5552
    ensures Deferred(start, bytes + [b], s1 + b, s2 + (s1 + b))
    ensures s1 + b < LIMIT && s2 + (s1 + b) < LIMIT
  {
    hide SumsBound;
    BoundNext(|bytes|, s1, s2, b);
    RunNext(start, bytes, s1, s2, b);
  }

  lemma BoundNext(n: nat, s1: nat, s2: nat, b: byte)
    requires SumsBound(n, s1, s2) && n < 5552
    ensures SumsBound(n + 1, s1 + b, s2 + (s1 + b)) && s1 + b < LIMIT && s2 + (s1 + b) < LIMIT
  {
    DeferredBound(n + 1);
  }

  lemma RunNext(start: Sums, bytes: seq<byte>, s1: nat, s2: nat, b: byte)
    requires s1 % BASE == Run(start, bytes).s1 % BASE && s2 % BASE == Run(start, bytes).s2 % BASE
    ensures (s1 + b) % BASE == Run(start, bytes + [b]).s1 % BASE
    ensures (s2 + (s1 + b)) % BASE == Run(start, bytes + [b]).s2 % BASE
  {
    assert (bytes + [b])[..|bytes|] == bytes;
    StepNext(Run(start, bytes), s1, s2, b);
  }

  lemma StepNext(r: Sums, s1: nat, s2: nat, b: byte)
    requires s1 % BASE == r.s1 % BASE && s2 % BASE == r.s2 % BASE
    ensures (s1 + b) % BASE == Step(r, b).s1 % BASE && (s2 + (s1 + b)) % BASE == Step(r, b).s2 % BASE
  {
    SumMod(s1, r.s1, b);
    SumMod(s2, r.s2, s1 + b);
    SumMod(s1 + b, (r.s1 + b) % BASE, r.s2);
  }

  lemma DeferredBound(n: nat)
    requires n <= 5552
    ensures 65535 + n * 65535 + Triangle(n) * 255 < LIMIT && 65535 + 255 * n < LIMIT
  {
    TriangleMonotone(n, 5552);
    TriangleIs(5552);
  }

  /** Equal remainders run to equal remainders. */
  lemma {:induction false} RunCongruent(s: Sums, t: Sums, bytes: seq<byte>)
    requires s.s1 % BASE == t.s1 % BASE && s.s2 % BASE == t.s2 % BASE
    ensures Run(s, bytes).s1 % BASE == Run(t, bytes).s1 % BASE && Run(s, bytes).s2 % BASE == Run(t, bytes).s2 % BASE
    ensures bytes != [] ==> Run(s, bytes) == Run(t, bytes)
  {
    if bytes != [] {
      var n := |bytes| - 1;
      RunCongruent(s, t, bytes[..n]);
      var a, b := Run(s, bytes[..n]), Run(t, bytes[..n]);
      SumMod(a.s1, b.s1, bytes[n]);
      SumMod(a.s2, b.s2, (a.s1 + bytes[n]) % BASE);
    }
  }

  lemma DeferredStart(start: Sums, s1: nat, s2: nat)
    requires start == Sums(s1, s2) && s1 < 65536 && s2 < 65536
    ensures Deferred(start, [], s1, s2)
  {
  }

  /** The sums after k bytes, reduced; before the first byte they may be as they were given. */
  ghost predicate SumsAt(a: nat, bytes: seq<byte>, k: nat, s1: nat, s2: nat) {
    && k <= |bytes| && s1 < 65536 && s2 < 65536 && (k > 0 ==> s1 < BASE && s2 < BASE)
    && s1 % BASE == Run(Unpack(a), bytes[..k]).s1 % BASE
    && s2 % BASE == Run(Unpack(a), bytes[..k]).s2 % BASE
  }

  lemma NextBlock(a: nat, bytes: seq<byte>, k: nat, n: nat, s1: nat, s2: nat, t1: nat, t2: nat)
    requires SumsAt(a, bytes, k, s1, s2) && k + n <= |bytes|
    requires Deferred(Sums(s1, s2), bytes[k..k + n], t1, t2)
    ensures SumsAt(a, bytes, k + n, t1 % BASE, t2 % BASE)
  {
    hide Run;
    assert bytes[..k] + bytes[k..k + n] == bytes[..k + n];
    RunAppend(Unpack(a), bytes[..k], bytes[k..k + n]);
    RunCongruent(Sums(s1, s2), Run(Unpack(a), bytes[..k]), bytes[k..k + n]);
  }

  lemma LastBlock(a: nat, bytes: seq<byte>, s1: nat, s2: nat)
    requires SumsAt(a, bytes, |bytes|, s1, s2) && bytes != []
    ensures Pack(Sums(s1, s2)) == Adler(a, bytes)
  {
    assert bytes[..|bytes|] == bytes;
    RunLast(Unpack(a), bytes);
    hide Run, Unpack;
    var r := Run(Unpack(a), bytes);
    SmallMod(s1);
    SmallMod(s2);
    SmallMod(r.s1);
    SmallMod(r.s2);
  }

  lemma RunLast(s: Sums, bytes: seq<byte>)
    requires bytes != []
    ensures Run(s, bytes).s1 < BASE && Run(s, bytes).s2 < BASE
  {
  }

  lemma SmallMod(v: nat)
    ensures v < BASE ==> v % BASE == v
  {
  }

  lemma FirstBlock(a: nat, bytes: seq<byte>)
    requires a < 0x1_0000_0000
    ensures SumsAt(a, bytes, 0, a % 65536, a / 65536)
    ensures Adler(a, []) == a
  {
    assert bytes[..0] == [];
  }

  /** Adds the next n bytes, eight at a time as long as there are eight, without reducing the sums. */
  method AddBlock(s1: nat, s2: nat, bytes: seq<byte>, from: nat, n: nat) returns (t1: nat, t2: nat)
    requires from + n <= |bytes| && n <= 5552 && s1 < 65536 && s2 < 65536
    ensures Deferred(Sums(s1, s2), bytes[from..from + n], t1, t2)
  {
    t1, t2 := s1, s2;
    var p, i := from, 0;
    DeferredStart(Sums(s1, s2), s1, s2);
    assert bytes[from..from] == [];
    hide Deferred, Run, LIMIT;
    while i + 7 < n
      invariant i <= n && p == from + i && Deferred(Sums(s1, s2), bytes[from..p], t1, t2)
    {
      for k := 0 to 8
        invariant Deferred(Sums(s1, s2), bytes[from..p + k], t1, t2)
      {
        t1, t2 := AddByte(Sums(s1, s2), t1, t2, bytes, from, p + k);
      }
      i, p := i + 8, p + 8;
    }
    while i < n
      invariant i <= n && p == from + i && Deferred(Sums(s1, s2), bytes[from..p], t1, t2)
    {
      t1, t2 := AddByte(Sums(s1, s2), t1, t2, bytes, from, p);
      i, p := i + 1, p + 1;
    }
  }

  /** One byte; neither sum leaves 32 bits. */
  method AddByte(ghost start: Sums, s1: nat, s2: nat, bytes: seq<byte>, ghost from: nat, p: nat)
    returns (t1: nat, t2: nat)
    requires from <= p < |bytes| && p - from < 5552 && Deferred(start, bytes[from..p], s1, s2)
    ensures Deferred(start, bytes[from..p + 1], t1, t2) && t1 < LIMIT && t2 < LIMIT
  {
    DeferredNext(start, bytes[from..p], s1, s2, bytes[p]);
    assert bytes[from..p] + [bytes[p]] == bytes[from..p + 1];
    t1 := s1 + bytes[p];
    t2 := s2 + t1;
  }

  /** One block between two reductions. */
  method NextSums(ghost a: nat, s1: nat, s2: nat, bytes: seq<byte>, at: nat, n: nat) returns (t1: nat, t2: nat)
    requires SumsAt(a, bytes, at, s1, s2) && s1 < 65536 && s2 < 65536 && at + n <= |bytes| && n <= 5552
    ensures SumsAt(a, bytes, at + n, t1, t2) && t1 < 65536 && t2 < 65536
  {
    hide SumsAt, Deferred, Run, Adler;
    t1, t2 := AddBlock(s1, s2, bytes, at, n);
    NextBlock(a, bytes, at, n, s1, s2, t1, t2);
    t1, t2 := t1 % BASE, t2 % BASE;
  }

  /** Computes the checksum with one reduction per 5552 bytes. */
  method Adler32(a: nat, bytes: seq<byte>) returns (r: nat)
    requires a < 0x1_0000_0000
    ensures r == Adler(a, bytes)
  {
    hide *;
    FirstBlock(a, bytes);
    var s1: nat, s2: nat := a % 65536, a / 65536;
    var left: nat, at: nat, n: nat := |bytes|, 0, |bytes| % 5552;
    ghost var q: int := |bytes| / 5552;
    while left > 0
      invariant at + left == |bytes| && n <= 5552 && -1 <= q && (left > 0 ==> left == n + 5552 * q && 0 <= q)
      invariant bytes == [] ==> s1 == a % 65536 && s2 == a / 65536
      invariant SumsAt(a, bytes, at, s1, s2) && s1 < 65536 && s2 < 65536
      decreases q + 1
    {
      s1, s2 := NextSums(a, s1, s2, bytes, at, n);
      left, at := left - n, at + n;
      n, q := 5552, q - 1;
    }
    if bytes != [] {
      LastBlock(a, bytes, s1, s2);
    } else {
      assert bytes == [];
      PackWhole(a);
    }
    r := Pack(Sums(s1, s2));
  }

  lemma PackWhole(a: nat)
    ensures Pack(Sums(a % 65536, a / 65536)) == a
  {
  }
}
