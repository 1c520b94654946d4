/** Canonical Huffman codes of RFC 1951 section 3.2.2, described by their code lengths (0 = symbol unused). */
module CanonicalCode {
  import opened Bits

  /** How many entries of `lens` equal l. */
  function Count(lens: seq<nat>, l: nat): (n: nat)
    ensures n <= |lens|
  {
    if lens == [] then 0
    else Count(lens[..|lens| - 1], l) + if lens[|lens| - 1] == l then 1 else 0
  }

  /** The share of the code space, in units of 2^-15, taken by codes shorter than l. */
  function Below(lens: seq<nat>, l: nat): nat
    requires l <= 16
  {
    if l <= 1 then 0 else Below(lens, l - 1) + Shl(Count(lens, l - 1), 16 - l)
  }

  /** The share of the code space taken by all codes of length at most 15; 2^15 is the whole space. */
  function Kraft(lens: seq<nat>): nat {
    Below(lens, 16)
  }

  predicate LengthsOk(lens: seq<nat>) {
    forall i :: 0 <= i < |lens| ==> lens[i] <= 15
  }

  /** Lengths for which a prefix code exists. */
  predicate Feasible(lens: seq<nat>) {
    LengthsOk(lens) && Kraft(lens) <= 32768
  }

  predicate Used(lens: seq<nat>, s: nat) {
    s < |lens| && lens[s] > 0
  }

  /** The smallest code of length l, step 2 of the RFC's algorithm. */
  function NextCode(lens: seq<nat>, l: nat): nat
    requires 1 <= l
  {
    if l == 1 then 0 else 2 * (NextCode(lens, l - 1) + Count(lens, l - 1))
  }

  /** The code of symbol s, step 3 of the RFC's algorithm. */
  function Code(lens: seq<nat>, s: nat): nat
    requires Used(lens, s)
  {
    NextCode(lens, lens[s]) + Count(lens[..s], lens[s])
  }

  /** The code of symbol s as transmitted. */
  function CodeBits(lens: seq<nat>, s: nat): (bits: seq<bool>)
    requires Used(lens, s)
    ensures |bits| == lens[s]
  {
    MsbBits(Code(lens, s), lens[s])
  }

  // ----- counting -----

  lemma {:induction false} CountPrefix(lens: seq<nat>, l: nat, i: nat, j: nat)
    requires i <= j <= |lens|
    ensures Count(lens[..i], l) <= Count(lens[..j], l)
    ensures i < j && lens[i] == l ==> Count(lens[..i], l) < Count(lens[..j], l)
    decreases j
  {
    if i < j {
      assert lens[..j][..j - 1] == lens[..j - 1];
      CountPrefix(lens, l, i, j - 1);
      if i == j - 1 {
        assert lens[..j][j - 1] == lens[i];
      }
    }
  }

  lemma CountIndex(lens: seq<nat>, s: nat)
    requires s < |lens|
    ensures Count(lens[..s], lens[s]) < Count(lens, lens[s])
  {
    assert lens[..|lens|] == lens;
    CountPrefix(lens, lens[s], s, |lens|);
  }

  /** The k-th symbol of length l exists when k is below the count. */
  lemma {:induction false} CountFind(lens: seq<nat>, l: nat, k: nat) returns (s: nat)
    requires k < Count(lens, l)
    ensures s < |lens| && lens[s] == l && Count(lens[..s], l) == k
  {
    var n := |lens| - 1;
    if k < Count(lens[..n], l) {
      s := CountFind(lens[..n], l, k);
      assert lens[..n][..s] == lens[..s];
    } else {
      s := n;
    }
  }

  // ----- code space -----

  lemma {:induction false} BelowMonotone(lens: seq<nat>, l: nat, m: nat)
    requires l <= m <= 16
    ensures Below(lens, l) <= Below(lens, m)
    decreases m
  {
    if l < m {
      BelowMonotone(lens, l, m - 1);
    }
  }

  /** Codes of a single length more: the Kraft total up to that length. */
  lemma BelowStep(lens: seq<nat>, l: nat, c: nat, b: nat)
    requires 2 <= l <= 16 && Count(lens, l - 1) == c && Below(lens, l - 1) == b
    ensures Below(lens, l) == b + Shl(c, 16 - l)
  {
  }

  lemma {:induction false} BelowZero(lens: seq<nat>, l: nat, m: nat)
    requires 1 <= l <= m <= 16 && forall k :: l <= k < m ==> Count(lens, k) == 0
    ensures Below(lens, m) == Below(lens, l)
    decreases m
  {
    if l < m {
      BelowZero(lens, l, m - 1);
      BelowStep(lens, m, 0, Below(lens, l));
      ShlAdd(0, 0, 16 - m);
    }
  }

  lemma {:induction false} NextCodeBelow(lens: seq<nat>, l: nat)
    requires 1 <= l <= 15
    ensures Shl(NextCode(lens, l), 15 - l) == Below(lens, l)
  {
    if l == 1 {
      assert NextCode(lens, 1) == 0;
      ShlAdd(0, 0, 14);
    } else {
      NextCodeBelow(lens, l - 1);
      var n, c := NextCode(lens, l - 1), Count(lens, l - 1);
      ShlAdd(n, c, 16 - l);
      ShlShl(n + c, 1, 15 - l);
      assert Shl(n + c, 1) == 2 * Shl(n + c, 0);
    }
  }

  /** Symbol s owns the interval of 15-bit values [Start(s), Start(s) + 2^(15 - length)). */
  function Start(lens: seq<nat>, s: nat): nat
    requires Used(lens, s) && lens[s] <= 15
  {
    Shl(Code(lens, s), 15 - lens[s])
  }

  function Stop(lens: seq<nat>, s: nat): nat
    requires Used(lens, s) && lens[s] <= 15
  {
    Shl(Code(lens, s) + 1, 15 - lens[s])
  }

  lemma StartBounds(lens: seq<nat>, s: nat)
    requires Used(lens, s) && lens[s] <= 15
    ensures Start(lens, s) == Below(lens, lens[s]) + Shl(Count(lens[..s], lens[s]), 15 - lens[s])
    ensures Start(lens, s) < Stop(lens, s) <= Below(lens, lens[s] + 1) <= Kraft(lens)
  {
    var l := lens[s];
    var n, i, c := NextCode(lens, l), Count(lens[..s], l), Count(lens, l);
    NextCodeBelow(lens, l);
    CountIndex(lens, s);
    BelowMonotone(lens, l + 1, 16);
    hide Below, NextCode, Count;
    ShlAdd(n, i, 15 - l);
    ShlAdd(n, i + 1, 15 - l);
    ShlAdd(n + i, 1, 15 - l);
    Pow2Monotone(0, 15 - l);
    ShlMonotone(i + 1, c, 15 - l);
  }

  /** Intervals are laid out by length, then by symbol. */
  lemma StartOrder(lens: seq<nat>, s: nat, t: nat)
    requires LengthsOk(lens) && Used(lens, s) && Used(lens, t)
    requires lens[s] < lens[t] || (lens[s] == lens[t] && s < t)
    ensures Stop(lens, s) <= Start(lens, t)
  {
    StartBounds(lens, s);
    StartBounds(lens, t);
    if lens[s] < lens[t] {
      BelowMonotone(lens, lens[s] + 1, lens[t]);
    } else {
      CountPrefix(lens, lens[s], s, t);
      ShlMonotone(Code(lens, s) + 1, Code(lens, t), 15 - lens[s]);
    }
  }

  /** Every code fits the length it is given. */
  lemma CodeFits(lens: seq<nat>, s: nat)
    requires Feasible(lens) && Used(lens, s)
    ensures Code(lens, s) < Pow2(lens[s])
  {
    StartBounds(lens, s);
    ShlShl(1, lens[s], 15 - lens[s]);
    Pow2Values();
    ShlCancel(Code(lens, s) + 1, Pow2(lens[s]), 15 - lens[s]);
  }

  lemma QuotientUnique(c: nat, x: nat, r: nat, m: nat)
    requires r < Pow2(m)
    ensures c == x <==> Shl(c, m) <= Shl(x, m) + r < Shl(c + 1, m)
  {
    ShlAdd(c, 1, m);
    ShlAdd(x, 1, m);
    if x < c {
      ShlMonotone(x + 1, c, m);
    } else if c < x {
      ShlMonotone(c + 1, x, m);
    }
  }

  /** The code of s starts a 15-bit string exactly when the string's value lies in the interval of s. */
  lemma CodewordInterval(lens: seq<nat>, s: nat, w: seq<bool>)
    requires Feasible(lens) && Used(lens, s) && |w| == 15
    ensures CodeBits(lens, s) <= w <==> Start(lens, s) <= MsbNat(w) < Stop(lens, s)
  {
    var l, c := lens[s], Code(lens, s);
    var a, b := w[..l], w[l..];
    assert w == a + b;
    MsbNatAppend(a, b);
    MsbNatBound(b);
    QuotientUnique(c, MsbNat(a), MsbNat(b), 15 - l);
    CodeFits(lens, s);
    PrefixByValue(c, l, a);
  }

  lemma PrefixByValue(c: nat, l: nat, a: seq<bool>)
    requires |a| == l && c < Pow2(l)
    ensures MsbBits(c, l) == a <==> c == MsbNat(a)
  {
    MsbNatOfMsbBits(c, l);
    MsbBitsOfMsbNat(a);
  }

  /** No code is a prefix of another: a bit string starts with at most one code word. */
  lemma PrefixFree(lens: seq<nat>, s: nat, t: nat, bits: seq<bool>)
    requires Feasible(lens) && Used(lens, s) && Used(lens, t)
    requires CodeBits(lens, s) <= bits && CodeBits(lens, t) <= bits
    ensures s == t
  {
    var w := (bits + seq(15, _ => false))[..15];
    assert CodeBits(lens, s) <= w;
    assert CodeBits(lens, t) <= w;
    CodewordInterval(lens, s, w);
    CodewordInterval(lens, t, w);
    if s != t {
      if lens[s] < lens[t] || (lens[s] == lens[t] && s < t) {
        StartOrder(lens, s, t);
      } else {
        StartOrder(lens, t, s);
      }
    }
  }

  /** A 15-bit value below the Kraft total lies in the interval of some symbol. */
  lemma {:induction false} FindInterval(lens: seq<nat>, v: nat, l: nat) returns (s: nat)
    requires LengthsOk(lens) && 1 <= l <= 16 && v < Below(lens, l)
    ensures Used(lens, s) && Start(lens, s) <= v < Stop(lens, s)
  {
    if v < Below(lens, l - 1) {
      s := FindInterval(lens, v, l - 1);
    } else {
      var b := Below(lens, l - 1);
      var k := Shr(v - b, 16 - l);
      SplitShift(v - b, 16 - l);
      LowBound(v - b, 16 - l);
      ShlAdd(k, 1, 16 - l);
      if Count(lens, l - 1) <= k {
        ShlMonotone(Count(lens, l - 1), k, 16 - l);
        assert false;
      }
      s := CountFind(lens, l - 1, k);
      StartBounds(lens, s);
      ShlAdd(Code(lens, s), 1, 16 - l);
    }
  }

  /** A complete code decodes: every 15 bits start with a code word. */
  lemma CompleteDecodes(lens: seq<nat>, w: seq<bool>) returns (s: nat)
    requires LengthsOk(lens) && Kraft(lens) == 32768 && |w| == 15
    ensures Used(lens, s) && CodeBits(lens, s) <= w
  {
    MsbNatBound(w);
    Pow2Values();
    s := FindInterval(lens, MsbNat(w), 16);
    CodewordInterval(lens, s, w);
  }
}
