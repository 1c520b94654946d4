/** What limiting the length of codes to 15 bits can cost. */
module LimitCost {
  import opened Bits
  import opened CanonicalCode
  import opened PrefixCost
  import opened HuffmanMerging
  import opened HuffmanTree
  import opened MinimumRedundancy
  import opened LengthLimit

  // ----- lists of lengths with the same counts -----

  ghost predicate Descending(r: seq<nat>) {
    forall i, j :: 0 <= i < j < |r| ==> r[j] <= r[i]
  }

  lemma {:induction false} CountMember(r: seq<nat>, k: nat)
    requires k < |r|
    ensures 0 < Count(r, r[k])
  {
    if k < |r| - 1 {
      CountMember(r[..|r| - 1], k);
    }
  }

  lemma {:induction false} CountWithout(r: seq<nat>, l: nat)
    requires forall k :: 0 <= k < |r| ==> r[k] != l
    ensures Count(r, l) == 0
  {
    if r != [] {
      CountWithout(r[..|r| - 1], l);
    }
  }

  /** The last, and smallest, entries agree. */
  lemma LastLeast(a: seq<nat>, b: seq<nat>)
    requires |a| == |b| > 0 && Descending(b) && forall l: nat :: Count(a, l) == Count(b, l)
    ensures a[|a| - 1] >= b[|b| - 1]
  {
    var x := a[|a| - 1];
    CountMember(a, |a| - 1);
    if x < b[|b| - 1] {
      CountWithout(b, x);
      assert false;
    }
  }

  lemma {:induction false} DescendingSame(a: seq<nat>, b: seq<nat>)
    requires |a| == |b| && Descending(a) && Descending(b) && forall l: nat :: Count(a, l) == Count(b, l)
    ensures a == b
  {
    if a != [] {
      LastLeast(a, b);
      LastLeast(b, a);
      var n := |a| - 1;
      forall l: nat ensures Count(a[..n], l) == Count(b[..n], l) {
        assert Count(a, l) == Count(b, l);
      }
      DescendingSame(a[..n], b[..n]);
      assert a == a[..n] + [a[n]] && b == b[..n] + [b[n]];
    }
  }

  lemma {:induction false} CountAppend(a: seq<nat>, b: seq<nat>, l: nat)
    ensures Count(a + b, l) == Count(a, l) + Count(b, l)
  {
    if b == [] {
      assert a + b == a;
    } else {
      CountAppend(a, b[..|b| - 1], l);
      assert (a + b)[..|a + b| - 1] == a + b[..|b| - 1];
    }
  }

  lemma {:induction false} CountCopies(n: nat, v: nat, l: nat)
    ensures Count(Copies(n, v), l) == if v == l then n else 0
  {
    if n > 0 {
      CountCopies(n - 1, v, l);
      assert Copies(n, v)[..n - 1] == Copies(n - 1, v);
    }
  }

  lemma {:induction false} RankedDescends(c: seq<nat>, top: nat)
    requires top < |c|
    ensures Descending(Ranked(c, top))
  {
    if top > 0 {
      RankedDescends(c, top - 1);
      RankedNext(c, top);
      hide Ranked, Copies;
    }
  }

  lemma {:induction false} RankedCounts(c: seq<nat>, top: nat, l: nat)
    requires top < |c|
    ensures Count(Ranked(c, top), l) == if 1 <= l <= top then c[l] else 0
  {
    if top > 0 {
      RankedCounts(c, top - 1, l);
      CountAppend(Copies(c[top], top), Ranked(c, top - 1), l);
      CountCopies(c[top], top, l);
      RankedNext(c, top);
      hide Ranked, Copies, Count;
    }
  }

  /** Lengths in descending order are those that their histogram gives. */
  lemma RankedIs(r: seq<nat>, c: seq<nat>, top: nat)
    requires top < |c| && Descending(r) && |r| == Codes(c, top)
    requires forall k :: 0 <= k < |r| ==> 1 <= r[k] <= top
    requires forall l :: 1 <= l <= top ==> Count(r, l) == c[l]
    ensures Ranked(c, top) == r
  {
    forall l: nat ensures Count(r, l) == Count(Ranked(c, top), l) {
      RankedCounts(c, top, l);
      if !(1 <= l <= top) {
        CountWithout(r, l);
      }
    }
    RankedDescends(c, top);
    hide Count, Ranked;
    DescendingSame(r, Ranked(c, top));
  }

  // ----- what the limit adds -----

  lemma FibonacciNumbers()
    ensures Growth(0, 1, 1) == Growth(1, 1, 1) == 1 && Growth(2, 1, 1) == 2 && Growth(3, 1, 1) == 3
    ensures Growth(4, 1, 1) == 5 && Growth(5, 1, 1) == 8 && Growth(6, 1, 1) == 13 && Growth(7, 1, 1) == 21
    ensures Growth(8, 1, 1) == 34 && Growth(9, 1, 1) == 55 && Growth(10, 1, 1) == 89 && Growth(11, 1, 1) == 144
    ensures Growth(12, 1, 1) == 233 && Growth(13, 1, 1) == 377
  {
    assert forall d: nat :: 4 <= d <= 13 ==> Growth(d, 1, 1) == Growth(d - 3, 5, 3) by {
      forall d: nat | 4 <= d <= 13 ensures Growth(d, 1, 1) == Growth(d - 3, 5, 3) {
        assert Growth(d, 1, 1) == Growth(d - 1, 2, 1) == Growth(d - 2, 3, 2);
      }
    }
  }

  /** The space of 2^15 taken by the codes of at most 15 bits, of rank lo to hi - 1. */
  function ShortSpace(r: seq<nat>, lo: nat, hi: nat): nat
    requires hi <= |r|
    decreases hi - lo
  {
    if hi <= lo then 0 else Unit(r[lo]) + ShortSpace(r, lo + 1, hi)
  }

  function Unit(l: nat): nat {
    if l <= 15 then Shl(1, 15 - l) else 0
  }

  /** A longer code with a limit of 15 costs a bounded multiple of its old space more. */
  lemma DearerCode(f: nat, l: nat, l': nat, total: nat)
    requires LightLeaf(f, l, total) && total < 65536 && l' <= 15
    ensures f * l' <= f * l + 187 * Unit(l)
  {
    if l < 15 {
      FibonacciNumbers();
      var g := Growth(l - 1, 1, 1);
      PowersOfTwo();
      hide Growth, Shl;
      DearerBy(f, l, g);
      assert f * l' <= f * 15 by {
        assert f * 15 == f * l' + f * (15 - l');
      }
      assert f * 15 == f * l + f * (15 - l);
    } else {
      assert f * l == f * l' + f * (l - l');
    }
  }

  lemma PowersOfTwo()
    ensures Shl(1, 1) == 2 && Shl(1, 2) == 4 && Shl(1, 3) == 8 && Shl(1, 4) == 16 && Shl(1, 5) == 32
    ensures Shl(1, 6) == 64 && Shl(1, 7) == 128 && Shl(1, 8) == 256 && Shl(1, 9) == 512 && Shl(1, 10) == 1024
    ensures Shl(1, 11) == 2048 && Shl(1, 12) == 4096 && Shl(1, 13) == 8192 && Shl(1, 14) == 16384
  {
    assert Shl(1, 4) == 2 * Shl(1, 3) == 4 * Shl(1, 2) == 8 * Shl(1, 1);
    assert Shl(1, 8) == 2 * Shl(1, 7) == 4 * Shl(1, 6) == 8 * Shl(1, 5) == 16 * Shl(1, 4);
    assert Shl(1, 12) == 2 * Shl(1, 11) == 4 * Shl(1, 10) == 8 * Shl(1, 9) == 16 * Shl(1, 8);
  }

  lemma FirstPower()
    ensures Shl(1, 0) == 1
  {
  }

  /** The Fibonacci numbers grow fast enough. */
  lemma DearerBy(f: nat, l: nat, g: nat)
    requires 1 <= l < 15 && g * f < 65536
    requires g == if l <= 2 then 1 else if l == 3 then 2 else if l == 4 then 3 else if l == 5 then 5
      else if l == 6 then 8 else if l == 7 then 13 else if l == 8 then 21 else if l == 9 then 34 else if l == 10 then 55
      else if l == 11 then 89 else if l == 12 then 144 else if l == 13 then 233 else 377
    ensures f * (15 - l) <= 187 * if l == 1 then 16384 else if l == 2 then 8192 else if l == 3 then 4096
      else if l == 4 then 2048 else if l == 5 then 1024 else if l == 6 then 512 else if l == 7 then 256
      else if l == 8 then 128 else if l == 9 then 64 else if l == 10 then 32 else if l == 11 then 16
      else if l == 12 then 8 else if l == 13 then 4 else 2
  {
  }

  lemma {:induction false} ShortSpaceSplit(r: seq<nat>, lo: nat, mid: nat, hi: nat)
    requires lo <= mid <= hi <= |r|
    ensures ShortSpace(r, lo, hi) == ShortSpace(r, lo, mid) + ShortSpace(r, mid, hi)
    decreases mid - lo
  {
    if lo < mid {
      ShortSpaceSplit(r, lo + 1, mid, hi);
    }
  }

  lemma {:induction false} ShortSpaceShare(r: seq<nat>, r': seq<nat>, lo: nat, hi: nat)
    requires hi <= |r| == |r'| && (forall k :: 0 <= k < |r'| ==> r'[k] <= 15)
    requires forall k :: lo <= k < hi ==> r[k] == r'[k]
    ensures ShortSpace(r, lo, hi) == LengthLimit.Share(r', lo, hi, 15)
    decreases hi - lo
  {
    if lo < hi {
      ShortSpaceShare(r, r', lo + 1, hi);
    }
  }

  lemma {:induction false} ShortSpaceFits(r: seq<nat>, k: nat)
    requires k <= |r|
    ensures Shl(ShortSpace(r, k, |r|), 17) <= Space(r[k..])
    decreases |r| - k
  {
    if k < |r| {
      ShortSpaceFits(r, k + 1);
      assert r[k..][1..] == r[k + 1..];
      ShlAdd(Unit(r[k]), ShortSpace(r, k + 1, |r|), 17);
      if r[k] <= 15 {
        ShlShl(1, 15 - r[k], 17);
      } else {
        ShlAdd(0, 0, 17);
      }
    } else {
      ShlAdd(0, 0, 17);
    }
  }

  /** The codes that were changed took little space before. */
  lemma ChangedSpace(r0: seq<nat>, r: seq<nat>, v: nat)
    requires |r| == |r0| && (forall k :: 0 <= k < |r| ==> 1 <= r[k] <= 15) && Unchanged(r0, r, 15, v)
    requires LengthLimit.Share(r, 0, |r|, 15) == Pow2(15) && Space(r0) == 0x1_0000_0000
    ensures ShortSpace(r0, 0, v) <= 2 * |r|
  {
    var n := |r|;
    hide Space, LengthLimit.Share, ShortSpace, Shl;
    ShortSpaceFits(r0, 0);
    assert r0[0..] == r0;
    ShlShl(1, 15, 17);
    WholeSpace();
    ShlCancel(ShortSpace(r0, 0, n), Pow2(15), 17);
    ShortSpaceSplit(r0, 0, v, n);
    ShareSplit(r, 0, v, n, 15);
    ShortSpaceShare(r0, r, v, n);
  }

  /** Every code costs at most 187 times its old space more. */
  lemma {:induction false} DearerCodes(freq: seq<nat>, r0: seq<nat>, r: seq<nat>, lo: nat, hi: nat)
    requires |freq| == |r0| == |r| && hi <= |r| && LightLeaves(freq, r0) && Sum(freq) < 65536
    requires forall k :: 0 <= k < |r| ==> r[k] <= 15
    ensures Dot(freq, r, lo, hi) <= Dot(freq, r0, lo, hi) + 187 * ShortSpace(r0, lo, hi)
    decreases hi - lo
  {
    hide Unit, LightLeaf;
    if lo < hi {
      DearerCode(freq[lo], r0[lo], r[lo], Sum(freq));
      DearerCodes(freq, r0, r, lo + 1, hi);
    }
  }

  lemma {:induction false} DotSame(freq: seq<nat>, a: seq<nat>, b: seq<nat>, lo: nat, hi: nat)
    requires hi <= |freq| && hi <= |a| && hi <= |b| && forall k :: lo <= k < hi ==> a[k] == b[k]
    ensures Dot(freq, a, lo, hi) == Dot(freq, b, lo, hi)
    decreases hi - lo
  {
    if lo < hi {
      DotSame(freq, a, b, lo + 1, hi);
    }
  }

  /** Limiting optimal lengths to 15 bits adds at most 374 bits for each symbol in use. */
  lemma LimitedCost(freq: seq<nat>, r0: seq<nat>, r: seq<nat>)
    requires |freq| >= 2 && Sum(freq) < 65536 && MinimumLengths(freq, r0) && Limited(r0, r, 15)
    ensures Dot(freq, r, 0, |freq|) <= Dot(freq, r0, 0, |freq|) + 374 * |freq|
  {
    var n := |freq|;
    var v :| Unchanged(r0, r, 15, v);
    hide Optimal, Dot, ShortSpace, Space, Sum, LightLeaf;
    ChangedSpace(r0, r, v);
    DearerCodes(freq, r0, r, 0, v);
    DotSplit(freq, r, 0, v, n);
    DotSplit(freq, r0, 0, v, n);
    DotSame(freq, r, r0, v, n);
  }

  lemma {:induction false} CodeOfShare(freq: seq<nat>, lens: seq<nat>, k: nat)
    requires |freq| == |lens| && k <= |freq| && forall i :: 0 <= i < |lens| ==> lens[i] <= 15
    ensures Within(CodeOf(freq[k..], lens[k..]), 15)
    ensures PrefixCost.Share(CodeOf(freq[k..], lens[k..]), 15) == LengthLimit.Share(lens, k, |lens|, 15)
    decreases |freq| - k
  {
    hide Shl;
    if k < |freq| {
      CodeOfShare(freq, lens, k + 1);
      assert freq[k..][1..] == freq[k + 1..] && lens[k..][1..] == lens[k + 1..];
      var rest := CodeOf(freq[k + 1..], lens[k + 1..]);
      assert CodeOf(freq[k..], lens[k..]) == [Leaf(freq[k], lens[k])] + rest;
      assert ([Leaf(freq[k], lens[k])] + rest)[1..] == rest;
    }
  }

  /** So they cost hardly more than any code of at most 15 bits. */
  lemma NearlyOptimal(freq: seq<nat>, r0: seq<nat>, r: seq<nat>, other: seq<nat>)
    requires |freq| >= 2 && Sum(freq) < 65536 && MinimumLengths(freq, r0) && Limited(r0, r, 15)
    requires |other| == |freq| && (forall i :: 0 <= i < |other| ==> other[i] <= 15)
    requires LengthLimit.Share(other, 0, |other|, 15) <= Pow2(15)
    ensures Dot(freq, r, 0, |freq|) <= Dot(freq, other, 0, |freq|) + 374 * |freq|
  {
    LimitedCost(freq, r0, r);
    CodeOfShare(freq, other, 0);
    CodeOfCost(freq, other, 0);
    CodeOfCost(freq, r0, 0);
    assert freq[0..] == freq && other[0..] == other && r0[0..] == r0;
    assert PrefixCode(CodeOf(freq, other), 15);
    hide Dot, Cost, CodeOf, Space, LightLeaves, Limited, PrefixCode;
  }
}
