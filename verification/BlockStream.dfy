/** What the streaming hashes share: messages fed in pieces, cut into blocks of 64 bytes, and padded at the end. */
module BlockStream {
  import opened Division

  type Chunk = b: seq<bv8> | |b| == 64 witness seq(64, _ => 0)

  /** The state after all whole blocks of m, each of which f mixes in. */
  function Fold<S>(f: (S, Chunk) -> S, s: S, m: seq<bv8>): S
    decreases |m|
  {
    if |m| < 64 then s else Fold(f, f(s, m[..64]), m[64..])
  }

  /** What follows the last whole block. */
  function Rest(m: seq<bv8>): (r: seq<bv8>)
    ensures |r| == |m| % 64 && r == m[|m| - |r|..]
  {
    m[|m| - |m| % 64..]
  }

  lemma {:induction false} FoldSplit<S>(f: (S, Chunk) -> S, s: S, a: seq<bv8>, b: seq<bv8>)
    requires |a| % 64 == 0
    ensures Fold(f, s, a + b) == Fold(f, Fold(f, s, a), b)
    decreases |a|
  {
    if a == [] {
      assert a + b == b;
    } else {
      assert (a + b)[..64] == a[..64] && (a + b)[64..] == a[64..] + b;
      FoldSplit(f, f(s, a[..64]), a[64..], b);
    }
  }

  /** Only the state and what follows the last whole block matter for what comes after. */
  lemma FoldMore<S>(f: (S, Chunk) -> S, s: S, m: seq<bv8>, a: seq<bv8>)
    ensures Fold(f, s, m + a) == Fold(f, Fold(f, s, m), Rest(m) + a)
    ensures Rest(m + a) == Rest(Rest(m) + a)
  {
    var k := |m| - |m| % 64;
    assert m + a == m[..k] + (Rest(m) + a);
    FoldSplit(f, s, m[..k], Rest(m) + a);
    assert m == m[..k] + Rest(m);
    FoldSplit(f, s, m[..k], Rest(m));
    FoldShort(f, Fold(f, s, m[..k]), Rest(m));
    RestSuffix(m[..k], Rest(m) + a);
  }

  lemma FoldShort<S>(f: (S, Chunk) -> S, s: S, m: seq<bv8>)
    requires |m| < 64
    ensures Fold(f, s, m) == s
  {
  }

  lemma RestSuffix(a: seq<bv8>, b: seq<bv8>)
    requires |a| % 64 == 0
    ensures Rest(a + b) == Rest(b)
  {
    assert |a + b| % 64 == |b| % 64;
  }

  /** One block, and then the rest. */
  lemma FoldBlock<S>(f: (S, Chunk) -> S, s: S, b: Chunk, m: seq<bv8>)
    ensures Fold(f, s, b + m) == Fold(f, f(s, b), m) && Rest(b + m) == Rest(m)
  {
    assert (b + m)[..64] == b && (b + m)[64..] == m;
    RestSuffix(b, m);
  }

  function Zeros(n: nat): (z: seq<bv8>)
    ensures |z| == n
  {
    seq(n, _ => 0)
  }

  /** The padding of RFC 1321 section 3.1 and FIPS 180-4 section 5.1.1: a one bit, and zeros up to 8 bytes before a
      block's end. */
  function Padding(n: nat): (p: seq<bv8>)
    ensures (n + |p|) % 64 == 56 && 1 <= |p| <= 64
  {
    [0x80] + Zeros((119 - n % 64) % 64)
  }

  /** The message's length in bits, modulo 2^64. */
  function BitLength(n: nat): (l: nat)
    ensures l < 0x1_0000_0000_0000_0000
  {
    8 * n % 0x1_0000_0000_0000_0000
  }

  lemma RestShort(m: seq<bv8>)
    requires |m| < 64
    ensures Rest(m) == m
  {
  }

  function Joined(pieces: seq<seq<bv8>>): seq<bv8> {
    if pieces == [] then [] else Joined(pieces[..|pieces| - 1]) + pieces[|pieces| - 1]
  }

  lemma JoinedNext(pieces: seq<seq<bv8>>, i: nat)
    requires i <= |pieces|
    ensures i < |pieces| ==> Joined(pieces[..i + 1]) == Joined(pieces[..i]) + pieces[i]
    ensures Joined(pieces[..0]) == []
  {
    if i < |pieces| {
      assert pieces[..i + 1][..i] == pieces[..i];
    }
  }

  lemma PaddingStarts(m: seq<bv8>)
    ensures m + [0x80] == m + ([0x80] + Zeros(0))
  {
  }

  /** A zero more, while the place for the length is not reached. */
  lemma PaddingNext(m: seq<bv8>, k: nat, n: nat)
    requires k <= (119 - |m| % 64) % 64 && n == |m| + 1 + k && n % 64 != 56
    ensures k < (119 - |m| % 64) % 64
    ensures m + ([0x80] + Zeros(k)) + [0] == m + ([0x80] + Zeros(k + 1))
  {
    assert Zeros(k + 1) == Zeros(k) + [0];
    PaddingPlace(|m|, k);
  }

  lemma PaddingEnds(m: seq<bv8>, k: nat, n: nat)
    requires k <= (119 - |m| % 64) % 64 && n == |m| + 1 + k && n % 64 == 56
    ensures [0x80] + Zeros(k) == Padding(|m|)
  {
    PaddingPlace(|m|, k);
  }

  lemma PaddingPlace(n: nat, k: nat)
    requires k <= (119 - n % 64) % 64
    ensures (n + 1 + k) % 64 == 56 <==> k == (119 - n % 64) % 64
  {
    var q, r := n / 64, n % 64;
    assert n == 64 * q + r;
  }

  // ----- counters -----

  /** Two 32-bit words that count bits, the low one first. */
  ghost predicate Counts(lo: nat, hi: nat, n: nat) {
    lo < 0x1_0000_0000 && hi < 0x1_0000_0000 && lo + 0x1_0000_0000 * hi == BitLength(n)
  }

  lemma CountsSmall(lo: nat, hi: nat, n: nat)
    requires Counts(lo, hi, n)
    ensures lo < 0x1_0000_0000 && hi < 0x1_0000_0000
  {
  }

  lemma NothingCounted()
    ensures Counts(0, 0, 0)
  {
  }

  /** The low word gives the place in the block. */
  lemma IndexFromCount(lo: nat, hi: nat, n: nat)
    requires Counts(lo, hi, n)
    ensures lo / 8 % 64 == n % 64
  {
    var q := 8 * n / 0x1_0000_0000_0000_0000;
    assert 8 * n == 0x1_0000_0000_0000_0000 * q + lo + 0x1_0000_0000 * hi;
    assert lo == 8 * (n - 0x2000_0000_0000_0000 * q - 0x2000_0000 * hi);
    Multiple64(lo / 8, n, 0x80_0000_0000_0000 * q + 0x80_0000 * hi);
  }

  lemma Multiple64(a: nat, b: nat, k: int)
    requires b == a + 64 * k
    ensures a % 64 == b % 64
  {
    ModSame(b, a, k, 64);
  }

  /** Adding the bits of len bytes, with the carry into the high word. */
  lemma CountMore(lo: nat, hi: nat, n: nat, len: nat, lo': nat, hi': nat)
    requires Counts(lo, hi, n) && len < 0x1_0000_0000
    requires lo' == (lo + 8 * len % 0x1_0000_0000) % 0x1_0000_0000
    requires hi' == (hi + (if lo' < lo then 1 else 0) + len / 0x2000_0000) % 0x1_0000_0000
    ensures Counts(lo', hi', n + len)
  {
    var low := 8 * len % 0x1_0000_0000;
    assert 8 * len == low + 0x1_0000_0000 * (len / 0x2000_0000);
    var carry := if lo' < lo then 1 else 0;
    assert lo + low == lo' + 0x1_0000_0000 * carry;
    var h := hi + carry + len / 0x2000_0000;
    assert lo' + 0x1_0000_0000 * h == lo + 0x1_0000_0000 * hi + 8 * len;
    WrapHigh(lo', h);
    BitLengthMore(n, len, lo' + 0x1_0000_0000 * h);
  }

  /** A sum wrapped exactly if it is less than either part. */
  lemma CarryEither(lo: nat, x: nat, sum: nat)
    requires lo < 0x1_0000_0000 && x < 0x1_0000_0000 && sum == (lo + x) % 0x1_0000_0000
    ensures sum < x <==> sum < lo
  {
  }

  lemma WrapHigh(lo: nat, h: nat)
    requires lo < 0x1_0000_0000
    ensures (lo + 0x1_0000_0000 * h) % 0x1_0000_0000_0000_0000 == lo + 0x1_0000_0000 * (h % 0x1_0000_0000)
  {
    var q, r := h / 0x1_0000_0000, h % 0x1_0000_0000;
    assert h == 0x1_0000_0000 * q + r;
    ModSame(lo + 0x1_0000_0000 * h, lo + 0x1_0000_0000 * r, q, 0x1_0000_0000_0000_0000);
    SmallMod(lo + 0x1_0000_0000 * r, 0x1_0000_0000_0000_0000);
  }

  /** The high word takes the carry, and then the high bits of the length. */
  lemma HighWord(hi: nat, carry: nat, x: nat)
    requires hi < 0x1_0000_0000 && carry <= 1
    ensures ((hi + carry) % 0x1_0000_0000 + x) % 0x1_0000_0000 == (hi + carry + x) % 0x1_0000_0000
  {
    if hi + carry == 0x1_0000_0000 {
      ModSame(hi + carry + x, x, 1, 0x1_0000_0000);
    }
  }

  lemma BitLengthMore(n: nat, len: nat, v: nat)
    requires v == BitLength(n) + 8 * len
    ensures v % 0x1_0000_0000_0000_0000 == BitLength(n + len)
  {
    var q := 8 * n / 0x1_0000_0000_0000_0000;
    ModSame(8 * (n + len), v, q, 0x1_0000_0000_0000_0000);
  }
}
