/** Limiting the length of Huffman codes by rebalancing the histogram of their lengths. */
module LengthLimit {
  import opened Bits

  /** The share of a code space of 2^size taken by c[1] to c[top] codes of lengths 1 to top. */
  function Total(c: seq<nat>, top: nat, size: nat): nat
    requires top < |c| && top <= size
  {
    if top == 0 then 0 else Total(c, top - 1, size) + Shl(c[top], size - top)
  }

  /** How many codes have a length from 1 to top. */
  function Codes(c: seq<nat>, top: nat): nat
    requires top < |c|
  {
    if top == 0 then 0 else Codes(c, top - 1) + c[top]
  }

  lemma {:induction false} TotalSame(c: seq<nat>, c': seq<nat>, top: nat, size: nat)
    requires top < |c| == |c'| && top <= size && forall i :: 1 <= i <= top ==> c[i] == c'[i]
    ensures Total(c, top, size) == Total(c', top, size) && Codes(c, top) == Codes(c', top)
  {
    if top > 0 {
      TotalSame(c, c', top - 1, size);
    }
  }

  /** Changing one count. */
  lemma {:induction false} TotalUpdate(c: seq<nat>, k: nat, v: nat, top: nat, size: nat)
    requires 1 <= k <= top < |c| && top <= size
    ensures Total(c[k := v], top, size) + Shl(c[k], size - k) == Total(c, top, size) + Shl(v, size - k)
    ensures Codes(c[k := v], top) + c[k] == Codes(c, top) + v
  {
    if k < top {
      TotalUpdate(c, k, v, top - 1, size);
    } else {
      TotalSame(c, c[k := v], top - 1, size);
    }
  }

  lemma {:induction false} TotalScale(c: seq<nat>, top: nat, size: nat, k: nat)
    requires top < |c| && top <= size
    ensures Total(c, top, size + k) == Shl(Total(c, top, size), k)
  {
    if top > 0 {
      TotalScale(c, top - 1, size, k);
      ShlAdd(Total(c, top - 1, size), Shl(c[top], size - top), k);
      ShlShl(c[top], size - top, k);
    } else {
      ShlAdd(0, 0, k);
    }
  }

  /** Longer codes counted as length m take at least the space they really need. */
  lemma {:induction false} FoldGrows(c: seq<nat>, m: nat, top: nat, size: nat)
    requires m <= top < |c| && top <= size && 1 <= m
    ensures Codes(c, m - 1) <= Codes(c, top)
    ensures Total(c, top, size) <= Total(c, m - 1, size) + Shl(Codes(c, top) - Codes(c, m - 1), size - m)
    ensures Total(c, m - 1, size) + (Codes(c, top) - Codes(c, m - 1)) <= Total(c, top, size)
  {
    ShlGrows(c[top], size - top);
    if m < top {
      FoldGrows(c, m, top - 1, size);
      var longer := Codes(c, top - 1) - Codes(c, m - 1);
      ShlAdd(longer, c[top], size - m);
      ShlShl(c[top], size - top, top - m);
      ShlGrows(Shl(c[top], size - top), top - m);
    }
  }

  lemma {:induction false} AllLongest(c: seq<nat>, top: nat, size: nat)
    requires top < |c| && top <= size && forall i :: 1 <= i <= top ==> c[i] == 0
    ensures Total(c, top, size) == 0 && Codes(c, top) == 0
  {
    if top > 0 {
      AllLongest(c, top - 1, size);
      ShlAdd(0, 0, size - top);
    }
  }

  /** Between two steps of the rebalancing: the shorter codes alone do not overfill the space. */
  ghost predicate Rebalancing(c: seq<nat>, n: nat, m: nat, total: nat) {
    && 1 <= m < |c| && n <= Pow2(m)
    && total == Total(c, m, m) && Pow2(m) <= total
    && Total(c, m - 1, m) <= Pow2(m)
    && (total != Pow2(m) ==> Total(c, m - 1, m) < Pow2(m))
    && Codes(c, m) == n
  }

  /** One step: drops a code of length m, and splits the longest shorter code in two. */
  function Rebalanced(c: seq<nat>, m: nat, i: nat): seq<nat>
    requires 1 <= i < m < |c| && 0 < c[m] && 0 < c[i]
  {
    var d := c[m := c[m] - 1];
    var e := d[i := d[i] - 1];
    e[i + 1 := e[i + 1] + 2]
  }

  lemma RebalanceStep(c: seq<nat>, n: nat, m: nat, total: nat, i: nat)
    requires Rebalancing(c, n, m, total) && total != Pow2(m)
    requires 1 <= i < m && 0 < c[m] && 0 < c[i]
    ensures Rebalancing(Rebalanced(c, m, i), n, m, total - 1)
  {
    var d := c[m := c[m] - 1];
    var e := d[i := d[i] - 1];
    var f := e[i + 1 := e[i + 1] + 2];
    SpaceOfStep(c, m, i, m);
    assert Shl(c[m], 0) == c[m] && Shl(f[m], 0) == f[m];
  }

  lemma SpaceOfStep(c: seq<nat>, m: nat, i: nat, size: nat)
    requires 1 <= i < m < |c| && 0 < c[m] && 0 < c[i] && m <= size
    ensures Total(Rebalanced(c, m, i), m, size) + Shl(1, size - m) == Total(c, m, size)
    ensures Codes(Rebalanced(c, m, i), m) == Codes(c, m)
  {
    var d := c[m := c[m] - 1];
    var e := d[i := d[i] - 1];
    TotalUpdate(c, m, c[m] - 1, m, size);
    TotalUpdate(d, i, d[i] - 1, m, size);
    TotalUpdate(e, i + 1, e[i + 1] + 2, m, size);
    OneUnit(1, size - i - 1);
    hide Total, Codes, Shl;
    ShlAdd(c[m] - 1, 1, size - m);
    ShlAdd(d[i] - 1, 1, size - i);
    ShlAdd(e[i + 1], 2, size - i - 1);
  }

  /** A code takes twice the space of one that is a bit longer. */
  lemma OneUnit(v: nat, k: nat)
    ensures Shl(v, k + 1) == Shl(2 * v, k)
  {
    ShlShl(v, 1, k);
    assert Shl(v, 1) == 2 * Shl(v, 0);
  }

  /** While the space is overfull there is a longest code to drop and a shorter one to split. */
  lemma CanRebalance(c: seq<nat>, n: nat, m: nat, total: nat) returns (k: nat)
    requires Rebalancing(c, n, m, total) && total != Pow2(m)
    ensures 0 < c[m] && 1 <= k < m && 0 < c[k]
  {
    assert Total(c, m, m) == Total(c, m - 1, m) + Shl(c[m], 0);
    if k :| 1 <= k < m && c[k] != 0 {
      return k;
    }
    AllLongest(c, m - 1, m);
    assert false;
  }

  // ----- the lengths by rank -----

  /** The lengths that c counts up to top, the longest first. */
  function Ranked(c: seq<nat>, top: nat): (r: seq<nat>)
    requires top < |c|
    ensures |r| == Codes(c, top)
    ensures forall k :: 0 <= k < |r| ==> 1 <= r[k] <= top
  {
    if top == 0 then [] else Copies(c[top], top) + Ranked(c, top - 1)
  }

  function Copies(n: nat, v: nat): (r: seq<nat>)
    ensures |r| == n && forall k :: 0 <= k < n ==> r[k] == v
  {
    seq(n, _ => v)
  }

  /** The share of a code space of 2^m taken by the codes of rank lo to hi - 1. */
  function Share(r: seq<nat>, lo: nat, hi: nat, m: nat): nat
    requires hi <= |r| && forall k :: 0 <= k < |r| ==> r[k] <= m
    decreases hi - lo
  {
    if hi <= lo then 0 else Shl(1, m - r[lo]) + Share(r, lo + 1, hi, m)
  }

  lemma {:induction false} ShareSplit(r: seq<nat>, lo: nat, mid: nat, hi: nat, m: nat)
    requires lo <= mid <= hi <= |r| && forall k :: 0 <= k < |r| ==> r[k] <= m
    ensures Share(r, lo, hi, m) == Share(r, lo, mid, m) + Share(r, mid, hi, m)
    decreases mid - lo
  {
    if lo < mid {
      ShareSplit(r, lo + 1, mid, hi, m);
    }
  }

  /** Only the lengths from lo to hi - 1 count. */
  lemma {:induction false} ShareSame(r: seq<nat>, r': seq<nat>, lo: nat, hi: nat, m: nat)
    requires hi <= |r| && hi <= |r'|
    requires (forall k :: 0 <= k < |r| ==> r[k] <= m) && (forall k :: 0 <= k < |r'| ==> r'[k] <= m)
    requires forall k :: lo <= k < hi ==> r[k] == r'[k]
    ensures Share(r, lo, hi, m) == Share(r', lo, hi, m)
    decreases hi - lo
  {
    if lo < hi {
      ShareSame(r, r', lo + 1, hi, m);
    }
  }

  lemma {:induction false} ShareLongest(r: seq<nat>, lo: nat, hi: nat, m: nat)
    requires lo <= hi <= |r| && (forall k :: 0 <= k < |r| ==> r[k] <= m) && forall k :: lo <= k < hi ==> r[k] == m
    ensures Share(r, lo, hi, m) == hi - lo
    decreases hi - lo
  {
    if lo < hi {
      ShareLongest(r, lo + 1, hi, m);
    }
  }

  /** No codes have lengths between i and top. */
  lemma {:induction false} RankedSkip(c: seq<nat>, i: nat, top: nat)
    requires i <= top < |c| && forall j :: i < j <= top ==> c[j] == 0
    ensures Ranked(c, top) == Ranked(c, i)
    decreases top
  {
    if i < top {
      RankedSkip(c, i, top - 1);
    }
  }

  lemma {:induction false} RankedSame(c: seq<nat>, c': seq<nat>, top: nat)
    requires top < |c| == |c'| && forall i :: 1 <= i <= top ==> c[i] == c'[i]
    ensures Ranked(c, top) == Ranked(c', top)
  {
    if top > 0 {
      RankedSame(c, c', top - 1);
    }
  }

  lemma RankedTop(c: seq<nat>, m: nat, i: nat)
    requires 1 <= i < m < |c| && forall j :: i < j < m ==> c[j] == 0
    ensures Ranked(c, m) == Copies(c[m], m) + (Copies(c[i], i) + Ranked(c, i - 1))
  {
    RankedSkip(c, i, m - 1);
    hide Copies;
  }

  /** a lengths m and b lengths i, before and after a step. */
  lemma StepPieces(a: nat, b: nat, m: nat, i: nat, rest: seq<nat>)
    requires 0 < a && 0 < b && i < m
    ensures var r := Copies(a, m) + (Copies(b, i) + rest); var r' := r[a - 1 := i + 1][a := i + 1];
      && r[a] == i
      && (i + 1 < m ==> r' == Copies(a - 1, m) + (Copies(2, i + 1) + (Copies(b - 1, i) + rest)))
      && (i + 1 == m ==> r' == Copies(a + 1, m) + (Copies(b - 1, i) + rest))
  {
  }

  lemma RebalancedAt(c: seq<nat>, m: nat, i: nat)
    requires 1 <= i < m < |c| && 0 < c[m] && 0 < c[i] && forall j :: i < j < m ==> c[j] == 0
    ensures var f := Rebalanced(c, m, i);
      && |f| == |c| && f[i] == c[i] - 1 && (forall j :: 1 <= j < i ==> f[j] == c[j])
      && (i + 1 < m ==> f[m] == c[m] - 1 && f[i + 1] == 2 && forall j :: i + 1 < j < m ==> f[j] == 0)
      && (i + 1 == m ==> f[m] == c[m] + 1)
  {
  }

  /** The lengths after a step on a codes of length m and b of length i. */
  lemma RankedAfter(c: seq<nat>, m: nat, i: nat)
    requires 1 <= i < m < |c| && 0 < c[m] && 0 < c[i] && forall j :: i < j < m ==> c[j] == 0
    ensures var f, rest := Ranked(Rebalanced(c, m, i), m), Copies(c[i] - 1, i) + Ranked(c, i - 1);
      && (i + 1 < m ==> f == Copies(c[m] - 1, m) + (Copies(2, i + 1) + rest))
      && (i + 1 == m ==> f == Copies(c[m] + 1, m) + rest)
  {
    var f := Rebalanced(c, m, i);
    RebalancedAt(c, m, i);
    RankedSame(c, f, i - 1);
    RankedNext(f, i);
    hide Ranked, Copies, Rebalanced;
    if i + 1 < m {
      RankedTop(f, m, i + 1);
    } else {
      RankedTop(f, m, i);
    }
  }

  /** A step gives the last of the longest codes the length i + 1, and the first of the others as well. */
  lemma RankedStep(c: seq<nat>, m: nat, i: nat)
    requires 1 <= i < m < |c| && 0 < c[m] && 0 < c[i] && forall j :: i < j < m ==> c[j] == 0
    ensures var r, q := Ranked(c, m), c[m];
      && q < |r| && r[q] == i
      && Ranked(Rebalanced(c, m, i), m) == r[q - 1 := i + 1][q := i + 1]
  {
    RankedTop(c, m, i);
    StepPieces(c[m], c[i], m, i, Ranked(c, i - 1));
    RankedAfter(c, m, i);
    hide *;
  }

  lemma RankedNext(c: seq<nat>, i: nat)
    requires 0 < i < |c|
    ensures Ranked(c, i) == Copies(c[i], i) + Ranked(c, i - 1)
  {
  }

  /**
   From r0, which was over-full, some steps have led to r, whose first q lengths are m. From rank v on nothing has
   changed, and the shorter codes before v take no more space than there are codes.
   */
  ghost predicate Kept(r0: seq<nat>, r: seq<nat>, m: nat, q: nat, v: nat) {
    && |r| == |r0| && q <= v <= |r|
    && (forall k :: 0 <= k < |r| ==> 1 <= r[k] <= m)
    && (forall k :: 0 <= k < q ==> r[k] == m) && (forall k :: q <= k < |r| ==> r[k] < m)
    && (forall k :: v <= k < |r| ==> r[k] == r0[k])
    && Share(r, q, v, m) <= |r|
  }

  /** Both codes of a step, of length i + 1, take the space of one of length i. */
  lemma StepShare(r: seq<nat>, m: nat, q: nat, v: nat)
    requires 0 < q < |r| && q <= v <= |r| && r[q] < m && forall k :: 0 <= k < |r| ==> r[k] <= m
    ensures var i := r[q]; var r' := r[q - 1 := i + 1][q := i + 1]; var v' := if v == q then q + 1 else v;
      && Share(r', q + 1, v', m) == Share(r, q + 1, v', m)
      && Share(r', q - 1, v', m) == Shl(1, m - i) + Share(r, q + 1, v', m)
      && (v > q ==> Share(r, q, v, m) == Shl(1, m - i) + Share(r, q + 1, v, m))
  {
    var i := r[q];
    var r' := r[q - 1 := i + 1][q := i + 1];
    var v' := if v == q then q + 1 else v;
    OneUnit(1, m - i - 1);
    ShlAdd(1, 1, m - i - 1);
    ShareSame(r, r', q + 1, v', m);
    assert Share(r', q, v', m) == Shl(1, m - (i + 1)) + Share(r', q + 1, v', m);
    assert Share(r', q - 1, v', m) == Shl(1, m - (i + 1)) + Share(r', q, v', m);
  }

  lemma KeptStep(r0: seq<nat>, r: seq<nat>, m: nat, q: nat, v: nat)
    requires Kept(r0, r, m, q, v) && 0 < q < |r| && (v == q ==> Pow2(m - r[q]) <= |r|)
    ensures var i := r[q];
      Kept(r0, r[q - 1 := i + 1][q := i + 1], m, if i + 1 < m then q - 1 else q + 1, if v == q then q + 1 else v)
  {
    StepShare(r, m, q, v);
    assert Share(r, q + 1, q + 1, m) == 0;
    hide Share;
  }

  /** When nothing lies between i and m, the shorter codes leave at least a code of length i free. */
  lemma FreeSpace(c: seq<nat>, n: nat, m: nat, total: nat, i: nat)
    requires Rebalancing(c, n, m, total) && total != Pow2(m) && 1 <= i < m && forall j :: i < j < m ==> c[j] == 0
    ensures Pow2(m - i) <= c[m] <= n
  {
    TotalSkip(c, i, m - 1, m);
    TotalScale(c, i, i, m - i);
    var t := Total(c, i, i);
    ShlShl(1, i, m - i);
    if Pow2(i) <= t {
      ShlMonotone(Pow2(i), t, m - i);
      assert false;
    }
    ShlMonotone(t + 1, Pow2(i), m - i);
    ShlAdd(t, 1, m - i);
    assert Total(c, m, m) == Total(c, m - 1, m) + Shl(c[m], 0);
  }

  lemma {:induction false} TotalSkip(c: seq<nat>, i: nat, top: nat, size: nat)
    requires i <= top < |c| && top <= size && forall j :: i < j <= top ==> c[j] == 0
    ensures Total(c, top, size) == Total(c, i, size)
    decreases top
  {
    if i < top {
      TotalSkip(c, i, top - 1, size);
      ShlAdd(0, 0, size - top);
    }
  }

  lemma {:induction false} RankedShare(c: seq<nat>, top: nat, m: nat)
    requires top <= m && top < |c|
    ensures Share(Ranked(c, top), 0, Codes(c, top), m) == Total(c, top, m)
  {
    if top > 0 {
      RankedShare(c, top - 1, m);
      var r, rest, k := Ranked(c, top), Ranked(c, top - 1), c[top];
      assert r == Copies(k, top) + rest;
      ShareSplit(r, 0, k, |r|, m);
      ShareCopies(r, 0, k, top, m);
      assert r[k..] == rest;
      ShareDrop(r, k, k, |r|, m);
    }
  }

  lemma {:induction false} ShareCopies(r: seq<nat>, lo: nat, hi: nat, l: nat, m: nat)
    requires lo <= hi <= |r| && l <= m && (forall k :: 0 <= k < |r| ==> r[k] <= m)
    requires forall k :: lo <= k < hi ==> r[k] == l
    ensures Share(r, lo, hi, m) == Shl(hi - lo, m - l)
    decreases hi - lo
  {
    if lo < hi {
      ShareCopies(r, lo + 1, hi, l, m);
      ShlAdd(1, hi - lo - 1, m - l);
    } else {
      ShlAdd(0, 0, m - l);
    }
  }

  lemma {:induction false} ShareDrop(r: seq<nat>, a: nat, lo: nat, hi: nat, m: nat)
    requires a <= lo <= hi <= |r| && forall k :: 0 <= k < |r| ==> r[k] <= m
    ensures Share(r, lo, hi, m) == Share(r[a..], lo - a, hi - a, m)
    decreases hi - lo
  {
    if lo < hi {
      ShareDrop(r, a, lo + 1, hi, m);
    }
  }

  /** Longer codes are cut to length m. */
  lemma {:induction false} RankedLong(c: seq<nat>, m: nat, top: nat)
    requires 1 <= m <= top < |c|
    ensures Codes(c, m - 1) <= Codes(c, top)
    ensures var r, q := Ranked(c, top), Codes(c, top) - Codes(c, m - 1);
      (forall k :: 0 <= k < q ==> r[k] >= m) && r[q..] == Ranked(c, m - 1)
  {
    if m < top {
      RankedLong(c, m, top - 1);
      var r, rest := Ranked(c, top), Ranked(c, top - 1);
      assert r == Copies(c[top], top) + rest;
      hide Copies, Ranked;
      var q := Codes(c, top - 1) - Codes(c, m - 1);
      assert r[c[top] + q..] == rest[q..];
    } else {
      assert Ranked(c, m) == Copies(c[m], m) + Ranked(c, m - 1);
    }
  }

  /**
   Lengths r within the limit m take the place of r0, which are not limited. They fill the code space; from some rank on
   nothing has changed, and before it they take at most twice as many units of space as there are codes.
   */
  ghost predicate Limited(r0: seq<nat>, r: seq<nat>, m: nat) {
    && |r| == |r0| && (forall k :: 0 <= k < |r| ==> 1 <= r[k] <= m)
    && Share(r, 0, |r|, m) == Pow2(m)
    && exists v :: Unchanged(r0, r, m, v)
  }

  ghost predicate Unchanged(r0: seq<nat>, r: seq<nat>, m: nat, v: nat)
    requires |r| == |r0| && forall k :: 0 <= k < |r| ==> r[k] <= m
  {
    && v <= |r| && Share(r, 0, v, m) <= 2 * |r|
    && forall k :: v <= k < |r| ==> r[k] == r0[k] < m
  }

  /** Cutting the lengths to m is where the steps start. */
  lemma KeptStart(c: seq<nat>, f: seq<nat>, n: nat, m: nat)
    requires |c| == 33 && 1 <= m < 32 && Codes(c, 32) == n && Codes(c, m) <= n
    requires f == c[m := c[m] + (n - Codes(c, m))]
    ensures Codes(f, m) == n && Kept(Ranked(c, 32), Ranked(f, m), m, f[m], f[m])
  {
    RankedLong(c, m, 32);
    TotalSame(c, f, m - 1, m);
    RankedSame(c, f, m - 1);
    RankedNext(f, m);
    CodesNext(c, m);
    CodesNext(f, m);
    hide Ranked, Codes, Kept;
    CutLengths(Ranked(c, 32), Ranked(c, m - 1), f[m], m);
  }

  lemma CutLengths(r0: seq<nat>, rest: seq<nat>, q: nat, m: nat)
    requires 0 < m && q <= |r0| && r0[q..] == rest && forall k :: 0 <= k < |rest| ==> 1 <= rest[k] < m
    ensures Kept(r0, Copies(q, m) + rest, m, q, q)
  {
    var r := Copies(q, m) + rest;
    forall k | q <= k < |r| ensures r[k] == r0[k] == rest[k - q] {
      assert r0[q..][k - q] == r0[k];
    }
  }

  lemma KeptEnd(r0: seq<nat>, r: seq<nat>, m: nat, q: nat, v: nat)
    requires Kept(r0, r, m, q, v) && Share(r, 0, |r|, m) == Pow2(m)
    ensures Limited(r0, r, m)
  {
    ShareSplit(r, 0, q, v, m);
    ShareLongest(r, 0, q, m);
    assert Unchanged(r0, r, m, v);
  }

  /** What the counts of the lengths say of the lengths themselves. */
  ghost predicate KeptCounts(r0: seq<nat>, c: seq<nat>, m: nat, v: nat)
    requires m < |c|
  {
    Kept(r0, Ranked(c, m), m, c[m], v)
  }

  lemma KeptCountsStep(r0: seq<nat>, c: seq<nat>, n: nat, m: nat, total: nat, i: nat, v: nat)
    requires Rebalancing(c, n, m, total) && total != Pow2(m) && 1 <= i < m && 0 < c[m] && 0 < c[i]
    requires (forall j :: i < j < m ==> c[j] == 0) && KeptCounts(r0, c, m, v)
    ensures KeptCounts(r0, Rebalanced(c, m, i), m, if v == c[m] then v + 1 else v)
  {
    var r, q := Ranked(c, m), c[m];
    FreeSpace(c, n, m, total, i);
    RankedStep(c, m, i);
    RebalancedAt(c, m, i);
    assert |r| == n by {
      assert Codes(c, m) == n;
    }
    hide Rebalancing, Rebalanced, Ranked, Kept, Pow2;
    KeptStep(r0, r, m, q, v);
  }

  /**
   Folds codes longer than m into length m, then rebalances until the lengths exactly fill the code space.
   The histogram must be that of a complete code for at most 2^m symbols.
   */
  method EnforceMaxCodeSize(c: array<nat>, n: nat, m: nat)
    requires c.Length == 33 && 1 <= m < 32
    requires 2 <= n ==> Codes(c[..], 32) == n <= Pow2(m) && Total(c[..], 32, 32) == Pow2(32)
    modifies c
    ensures n <= 1 ==> c[..] == old(c[..])
    ensures 2 <= n ==> Codes(c[..], m) == n && Total(c[..], m, m) == Pow2(m)
    ensures 2 <= n ==> Limited(old(Ranked(c[..], 32)), Ranked(c[..], m), m)
    ensures c[0] == old(c[0])
  {
    if n <= 1 {
      return;
    }
    ghost var r0 := Ranked(c[..], 32);
    Fold(c, n, m);
    ghost var v := c[m];
    var total: nat := 0;
    var i := m;
    while i > 0
      invariant 0 <= i <= m
      invariant total + Total(c[..], i, m) == Total(c[..], m, m)
    {
      total := total + Shl(c[i], m - i);
      i := i - 1;
    }
    hide Kept, KeptCounts, Ranked;
    while total != Pow2(m)
      invariant Rebalancing(c[..], n, m, total) && c[0] == old(c[0]) && KeptCounts(r0, c[..], m, v)
      decreases total
    {
      v := Rebalance(c, n, m, total, r0, v);
      total := total - 1;
    }
    LimitedAtEnd(r0, c[..], n, m, v);
  }

  lemma LimitedAtEnd(r0: seq<nat>, c: seq<nat>, n: nat, m: nat, v: nat)
    requires Rebalancing(c, n, m, Pow2(m)) && KeptCounts(r0, c, m, v)
    ensures Limited(r0, Ranked(c, m), m) && Codes(c, m) == n && Total(c, m, m) == Pow2(m)
  {
    RankedShare(c, m, m);
    KeptEnd(r0, Ranked(c, m), m, c[m], v);
  }

  /** Drops a code of length m and splits the longest shorter code. */
  method Rebalance(c: array<nat>, ghost n: nat, m: nat, ghost total: nat, ghost r0: seq<nat>, ghost v: nat)
    returns (ghost v': nat)
    requires 1 <= m < c.Length && Rebalancing(c[..], n, m, total) && total != Pow2(m) && KeptCounts(r0, c[..], m, v)
    modifies c
    ensures total > 0 && Rebalancing(c[..], n, m, total - 1) && c[0] == old(c[0]) && KeptCounts(r0, c[..], m, v')
  {
    hide Rebalancing, Pow2, KeptCounts;
    ghost var before := c[..];
    ghost var k := CanRebalance(before, n, m, total);
    c[m] := c[m] - 1;
    var i := m - 1;
    while i > 0 && c[i] == 0
      invariant k <= i < m && c[..] == before[m := before[m] - 1]
      invariant forall j :: i < j < m ==> before[j] == 0
    {
      i := i - 1;
    }
    c[i] := c[i] - 1;
    c[i + 1] := c[i + 1] + 2;
    assert c[..] == Rebalanced(before, m, i);
    RebalanceStep(before, n, m, total, i);
    KeptCountsStep(r0, before, n, m, total, i, v);
    v' := if v == before[m] then v + 1 else v;
    TotalPositive(before, n, m, total);
  }

  lemma TotalPositive(c: seq<nat>, n: nat, m: nat, total: nat)
    requires Rebalancing(c, n, m, total)
    ensures total > 0
  {
    hide Total, Codes;
    Pow2Monotone(0, m);
  }

  lemma Folded(c: seq<nat>, n: nat, m: nat)
    requires |c| == 33 && 1 <= m < 32
    requires Codes(c, 32) == n <= Pow2(m) && Total(c, 32, 32) == Pow2(32)
    ensures Codes(c, m) <= n
    ensures var f := c[m := c[m] + (n - Codes(c, m))]; Rebalancing(f, n, m, Total(f, m, m))
  {
    FoldGrows(c, m + 1, 32, 32);
    FoldedTotal(c, n, m);
    var f := c[m := c[m] + (n - Codes(c, m))];
    TotalSame(c, f, m - 1, m);
    assert Shl(f[m], 0) == f[m];
  }

  /** What the codes of at least m bits take once they have m bits. */
  lemma FoldedTotal(c: seq<nat>, n: nat, m: nat)
    requires |c| == 33 && 1 <= m < 32
    requires Codes(c, 32) == n <= Pow2(m) && Total(c, 32, 32) == Pow2(32)
    ensures Codes(c, m - 1) <= n
    ensures Total(c, m - 1, m) <= Pow2(m) <= Total(c, m - 1, m) + (n - Codes(c, m - 1))
    ensures Total(c, m - 1, m) == Pow2(m) ==> Codes(c, m - 1) == n
  {
    hide Shl;
    FoldGrows(c, m, 32, 32);
    var shorter, longer := Total(c, m - 1, m), n - Codes(c, m - 1);
    TotalScale(c, m - 1, m, 32 - m);
    ShlShl(1, m, 32 - m);
    ShlCancel(shorter, Pow2(m), 32 - m);
    ShlAdd(shorter, longer, 32 - m);
    ShlCancel(Pow2(m), shorter + longer, 32 - m);
  }

  method Fold(c: array<nat>, n: nat, m: nat)
    requires c.Length == 33 && 1 <= m < 32
    requires Codes(c[..], 32) == n <= Pow2(m) && Total(c[..], 32, 32) == Pow2(32)
    modifies c
    ensures Rebalancing(c[..], n, m, Total(c[..], m, m)) && c[0] == old(c[0])
    ensures KeptCounts(old(Ranked(c[..], 32)), c[..], m, c[m])
  {
    ghost var c0 := c[..];
    Folded(c0, n, m);
    KeptStart(c0, c0[m := c0[m] + (n - Codes(c0, m))], n, m);
    hide *;
    for i := m + 1 to 33
      invariant Codes(c0, m) <= Codes(c0, i - 1)
      invariant c[..] == c0[m := c0[m] + (Codes(c0, i - 1) - Codes(c0, m))]
    {
      CodesNext(c0, i);
      c[m] := c[m] + c[i];
    }
  }

  lemma CodesNext(c: seq<nat>, i: nat)
    requires 0 < i < |c|
    ensures Codes(c, i) == Codes(c, i - 1) + c[i]
  {
  }
}
