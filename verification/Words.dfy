/** Rotations of 32-bit words, and words as bytes. */
module Words {
  import opened Division

  function Rol(x: bv32, n: nat): bv32
    requires n <= 32
  {
    (x << n) | (x >> (32 - n))
  }

  function Ror(x: bv32, n: nat): bv32
    requires n <= 32
  {
    (x >> n) | (x << (32 - n))
  }

  /** Four bytes as a word, the first being the most significant, or the least. */
  function BigEndian(a: bv8, b: bv8, c: bv8, d: bv8): bv32 {
    (a as bv32 << 24) | (b as bv32 << 16) | (c as bv32 << 8) | (d as bv32)
  }

  function LittleEndian(a: bv8, b: bv8, c: bv8, d: bv8): bv32 {
    (a as bv32) | (b as bv32 << 8) | (c as bv32 << 16) | (d as bv32 << 24)
  }

  /** The bytes of a word that was put together from them. */
  lemma LittleParts(a: bv8, b: bv8, c: bv8, d: bv8)
    ensures LittleEndian(a, b, c, d) & 0xff == a as bv32
    ensures (LittleEndian(a, b, c, d) >> 8) & 0xff == b as bv32
    ensures (LittleEndian(a, b, c, d) >> 16) & 0xff == c as bv32
    ensures LittleEndian(a, b, c, d) >> 24 == d as bv32
  {
  }

  /** A byte of a word. */
  function ByteOf(x: bv32, shift: nat): bv8
    requires shift <= 24
  {
    ((x >> shift) & 0xff) as bv8
  }

  function BigBytes(x: bv32): (b: seq<bv8>)
    ensures |b| == 4
  {
    [ByteOf(x, 24), ByteOf(x, 16), ByteOf(x, 8), ByteOf(x, 0)]
  }

  function LittleBytes(x: bv32): (b: seq<bv8>)
    ensures |b| == 4
  {
    [ByteOf(x, 0), ByteOf(x, 8), ByteOf(x, 16), ByteOf(x, 24)]
  }

  /** All words as bytes. */
  function BigAll(xs: seq<bv32>): (b: seq<bv8>)
    ensures |b| == 4 * |xs|
  {
    if xs == [] then [] else BigAll(xs[..|xs| - 1]) + BigBytes(xs[|xs| - 1])
  }

  function LittleAll(xs: seq<bv32>): (b: seq<bv8>)
    ensures |b| == 4 * |xs|
  {
    if xs == [] then [] else LittleAll(xs[..|xs| - 1]) + LittleBytes(xs[|xs| - 1])
  }

  /** Byte k of a number, counted from the least significant one. */
  function ByteAt(n: nat, k: nat): bv8 {
    if k == 0 then (n % 256) as bv8 else ByteAt(n / 256, k - 1)
  }

  /** It is a digit to the base 256. */
  lemma {:induction false} ByteAtIs(n: nat, k: nat)
    ensures Pow256(k) > 0 && ByteAt(n, k) == (n / Pow256(k) % 256) as bv8
  {
    if k > 0 {
      ByteAtIs(n / 256, k - 1);
      DivTwice(n, Pow256(k - 1));
    }
  }

  /** A 64-bit number as bytes. */
  function BigLength(n: nat): (b: seq<bv8>)
    ensures |b| == 8
  {
    [ByteAt(n, 7), ByteAt(n, 6), ByteAt(n, 5), ByteAt(n, 4), ByteAt(n, 3), ByteAt(n, 2), ByteAt(n, 1), ByteAt(n, 0)]
  }

  function LittleLength(n: nat): (b: seq<bv8>)
    ensures |b| == 8
  {
    [ByteAt(n, 0), ByteAt(n, 1), ByteAt(n, 2), ByteAt(n, 3), ByteAt(n, 4), ByteAt(n, 5), ByteAt(n, 6), ByteAt(n, 7)]
  }

  /** The bytes of a number that is made of two words. */
  lemma TwoWords(lo: nat, hi: nat)
    requires lo < 0x1_0000_0000
    ensures var n := lo + 0x1_0000_0000 * hi;
      forall k :: 0 <= k < 4 ==> ByteAt(n, k) == ByteAt(lo, k) && ByteAt(n, k + 4) == ByteAt(hi, k)
  {
    forall k | 0 <= k < 4 ensures ByteAt(lo + 0x1_0000_0000 * hi, k) == ByteAt(lo, k)
        && ByteAt(lo + 0x1_0000_0000 * hi, k + 4) == ByteAt(hi, k) {
      LowBytes(lo, hi, 4, 0x1_0000_0000, k);
    }
  }

  lemma {:induction false} LowBytes(lo: nat, hi: nat, w: nat, m: nat, k: nat)
    requires m == Pow256(w) && lo < m
    ensures ByteAt(lo + m * hi, k + w) == ByteAt(hi, k)
    ensures k < w ==> ByteAt(lo + m * hi, k) == ByteAt(lo, k)
    decreases w, k
  {
    if w == 0 {
      assert lo + m * hi == hi;
    } else {
      var l, p := m / 256, lo / 256;
      Split(lo, hi, l);
      var n := lo + m * hi;
      assert n / 256 == p + l * hi && n % 256 == lo % 256;
      LowBytes(p, hi, w - 1, l, k);
      if k > 0 {
        LowBytes(p, hi, w - 1, l, k - 1);
      }
    }
  }

  lemma Split(lo: nat, hi: nat, l: nat)
    requires lo < 256 * l
    ensures (lo + 256 * l * hi) / 256 == lo / 256 + l * hi && (lo + 256 * l * hi) % 256 == lo % 256 && lo / 256 < l
  {
    var x := l * hi;
    assert 256 * l * hi == 256 * x;
  }

  function Pow256(n: nat): nat {
    if n == 0 then 1 else 256 * Pow256(n - 1)
  }
}
