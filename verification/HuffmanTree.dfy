/** The tree a finished merging describes: shape, depths and cost. */
module HuffmanTree {
  import opened PrefixCost
  import opened HuffmanMerging

  // ----- the tree that merging leaves behind -----

  /** A finished merging: |p| + 1 internal nodes, the last one the root, over |p| + 2 leaves. */
  ghost predicate Finished(freq: seq<nat>, m: Merging) {
    && |freq| >= 2 && |m.w| == |freq| - 1 && |m.p| == |freq| - 2 && |m.q| == |freq|
    && Parents(m.p, |m.p|)
    && Binary(m)
    && (forall j :: 0 <= j < |m.q| ==> m.q[j] <= |m.p|)
    && Grows(m)
    && History(freq, m)
    && (forall i :: 0 <= i < |m.w| ==> 2 <= m.w[i])
    && m.w[|m.p|] == Sum(freq)
  }

  /** The shape of a finished merging. */
  ghost predicate Tree(m: Merging) {
    && Parents(m.p, |m.p|) && Binary(m)
    && |m.q| == |m.p| + 2 && |m.w| == |m.p| + 1
    && (forall j :: 0 <= j < |m.q| ==> m.q[j] <= |m.p|)
  }

  lemma MergingEnds(ks: seq<nat>, freq: seq<nat>, m: Merging)
    requires Top(ks, freq, m) && History(freq, m) && |m.w| == |freq| - 1
    ensures Finished(freq, m)
    ensures forall i :: 0 <= i < |m.p| ==> ks[i] == m.p[i]
  {
    assert |m.p| == |freq| - 2;
    assert m.w[|m.p|..] == [m.w[|m.p|]];
    assert Sum([m.w[|m.p|]]) == m.w[|m.p|] + Sum([]);
    assert freq[|m.q|..] == [];
    forall j | 0 <= j < |m.q| ensures m.q[j] <= |m.p| {
      LeafParentsBelow(m, j);
    }
  }

  /** Node |w| is not a parent yet. */
  lemma LeafParentsBelow(m: Merging, j: nat)
    requires Binary(m) && |m.p| + |m.q| == 2 * |m.w| && j < |m.q|
    requires forall i :: 0 <= i < |m.p| ==> m.p[i] < |m.w|
    ensures m.q[j] < |m.w|
  {
    CountLessAll(m.p, |m.w|);
    CountLessFull(m.q, |m.w|);
  }

  lemma {:induction false} CountLessFull(s: seq<nat>, v: nat)
    ensures CountLess(s, v) <= |s|
    ensures CountLess(s, v) == |s| ==> forall i :: 0 <= i < |s| ==> s[i] < v
  {
    if s != [] {
      CountLessFull(s[..|s| - 1], v);
    }
  }

  /** The entries below v of a sorted sequence come first. */
  lemma {:induction false} CountLessSplits(s: seq<nat>, v: nat, i: nat)
    requires Sorted(s) && i < |s|
    ensures i < CountLess(s, v) <==> s[i] < v
  {
    CountLessFull(s[..|s| - 1], v);
    if s[|s| - 1] < v {
      CountLessAll(s, v);
    } else if i < |s| - 1 {
      CountLessSplits(s[..|s| - 1], v, i);
    }
  }

  /** The depth of internal node i; node |p| is the root. */
  function Depth(p: seq<nat>, i: nat): nat
    requires Parents(p, |p|) && i <= |p|
    decreases |p| - i
  {
    if i == |p| then 0 else Depth(p, p[i]) + 1
  }

  lemma {:induction false} DepthFalls(p: seq<nat>, i: nat, j: nat)
    requires Parents(p, |p|) && i <= j <= |p|
    ensures Depth(p, j) <= Depth(p, i)
    decreases |p| - i
  {
    if j < |p| && i < j {
      DepthFalls(p, p[i], p[j]);
    }
  }

  /** What d generations of growth make of a parent weight a and a child weight b. */
  function Growth(d: nat, a: nat, b: nat): nat {
    if d <= 1 then a else Growth(d - 1, a + b, a)
  }

  lemma {:induction false} GrowthMonotone(d: nat, a: nat, b: nat, a': nat, b': nat)
    requires a <= a' && b <= b'
    ensures Growth(d, a, b) <= Growth(d, a', b')
  {
    if d > 1 {
      GrowthMonotone(d - 1, a + b, a, a' + b', a');
    }
  }

  /** A node at depth d makes the root weigh at least what Fibonacci growth over d generations gives. */
  lemma {:induction false} RootWeight(freq: seq<nat>, m: Merging, i: nat)
    requires Finished(freq, m) && i < |m.p|
    ensures Growth(Depth(m.p, i), m.w[m.p[i]], m.w[i]) <= Sum(freq)
    decreases |m.p| - i
  {
    var j := m.p[i];
    if j < |m.p| {
      RootWeight(freq, m, j);
      assert GrowsAt(m, i);
      GrowthMonotone(Depth(m.p, j), m.w[j] + m.w[i], m.w[j], m.w[m.p[j]], m.w[j]);
    }
  }

  lemma {:induction false} DepthAttained(p: seq<nat>, i: nat, d: nat) returns (j: nat)
    requires Parents(p, |p|) && i <= |p| && d <= Depth(p, i)
    ensures j <= |p| && Depth(p, j) == d
    decreases |p| - i
  {
    if d == Depth(p, i) {
      j := i;
    } else {
      j := DepthAttained(p, p[i], d);
    }
  }

  lemma GrowthAt24()
    ensures Growth(24, 2, 2) >= 65536
  {
    assert Growth(24, 2, 2) == Growth(20, 16, 10);
    assert Growth(20, 16, 10) == Growth(16, 110, 68);
    assert Growth(16, 110, 68) == Growth(12, 754, 466);
    assert Growth(12, 754, 466) == Growth(8, 5168, 3194);
  }

  /** Weights of 16 bits keep every internal node above depth 24. */
  lemma DepthBound(freq: seq<nat>, m: Merging, i: nat)
    requires Finished(freq, m) && Sum(freq) < 65536 && i <= |m.p|
    ensures Depth(m.p, i) < 24
  {
    if 24 <= Depth(m.p, i) {
      var j := DepthAttained(m.p, i, 24);
      RootWeight(freq, m, j);
      GrowthMonotone(24, 2, 2, m.w[m.p[j]], m.w[j]);
      GrowthAt24();
    }
  }

  lemma FinishedShape(freq: seq<nat>, m: Merging)
    requires Finished(freq, m)
    ensures |m.w| == |freq| - 1 && |m.p| == |freq| - 2 && |m.q| == |freq|
    ensures Parents(m.p, |m.p|)
    ensures forall i :: 0 <= i < |m.p| ==> i < m.p[i] <= |m.p|
  {
  }

  // ----- cost -----

  /** The sum of a[i] * b[i] over lo <= i < hi. */
  function Dot(a: seq<nat>, b: seq<nat>, lo: nat, hi: nat): nat
    requires hi <= |a| && hi <= |b|
    decreases hi - lo
  {
    if hi <= lo then 0 else a[lo] * b[lo] + Dot(a, b, lo + 1, hi)
  }

  lemma {:induction false} DotSplit(a: seq<nat>, b: seq<nat>, lo: nat, mid: nat, hi: nat)
    requires lo <= mid <= hi <= |a| && hi <= |b|
    ensures Dot(a, b, lo, hi) == Dot(a, b, lo, mid) + Dot(a, b, mid, hi)
    decreases mid - lo
  {
    if lo < mid {
      DotSplit(a, b, lo + 1, mid, hi);
    }
  }

  lemma {:induction false} DotConstant(a: seq<nat>, b: seq<nat>, lo: nat, hi: nat, d: nat)
    requires hi <= |a| && hi <= |b| && forall i :: lo <= i < hi ==> b[i] == d
    ensures Dot(a, b, lo, hi) == SumOf(a, lo, hi) * d
    decreases hi - lo
  {
    if lo < hi {
      DotConstant(a, b, lo + 1, hi, d);
      assert (a[lo] + SumOf(a, lo + 1, hi)) * d == a[lo] * d + SumOf(a, lo + 1, hi) * d;
    }
  }

  /** The depths of the internal nodes. */
  function NodeDepths(m: Merging): (d: seq<nat>)
    requires Parents(m.p, |m.p|)
    ensures |d| == |m.p| + 1 && forall i :: 0 <= i <= |m.p| ==> d[i] == Depth(m.p, i)
  {
    seq(|m.p| + 1, i requires 0 <= i <= |m.p| => Depth(m.p, i))
  }

  /** The depths of the leaves. */
  function LeafDepth(m: Merging): (d: seq<nat>)
    requires Parents(m.p, |m.p|) && forall j :: 0 <= j < |m.q| ==> m.q[j] <= |m.p|
    ensures |d| == |m.q| && forall j :: 0 <= j < |m.q| ==> d[j] == Depth(m.p, m.q[j]) + 1
  {
    seq(|m.q|, j requires 0 <= j < |m.q| => Depth(m.p, m.q[j]) + 1)
  }

  /** Weight times depth over what was live when v internal nodes had been made. */
  ghost function Potential(freq: seq<nat>, m: Merging, v: nat): nat
    requires Finished(freq, m) && v <= |m.w|
  {
    assert ConservedAt(freq, m, v);
    Dot(m.w, NodeDepths(m), CountLess(m.p, v), v) + Dot(freq, LeafDepth(m), CountLess(m.q, v), |freq|)
  }

  /** The places of v in a sorted list. */
  lemma EqualRange(s: seq<nat>, v: nat)
    requires Sorted(s)
    ensures CountLess(s, v) <= CountLess(s, v + 1) <= |s|
    ensures forall k :: CountLess(s, v) <= k < CountLess(s, v + 1) ==> s[k] == v
  {
    CountLessStep(s, v);
    CountLessFull(s, v + 1);
    hide CountLess;
    forall k | CountLess(s, v) <= k < CountLess(s, v + 1) ensures s[k] == v {
      CountLessSplits(s, v, k);
      CountLessSplits(s, v + 1, k);
    }
  }

  /** The children of node v form an index range of internal nodes and one of leaves. */
  lemma ChildRanges(m: Merging, v: nat)
    requires Tree(m) && v <= |m.p|
    ensures var i, i', j, j' := CountLess(m.p, v), CountLess(m.p, v + 1), CountLess(m.q, v), CountLess(m.q, v + 1);
      && i <= i' <= v && j <= j' <= |m.q|
      && (forall k :: i <= k < i' ==> k < |m.p| && m.p[k] == v)
      && (forall k :: j <= k < j' ==> m.q[k] == v)
  {
    EqualRange(m.p, v);
    EqualRange(m.q, v);
    hide CountLess;
    if v < CountLess(m.p, v + 1) {
      CountLessSplits(m.p, v + 1, v);
    }
  }

  /** The children of node v weigh w[v]. */
  lemma ChildWeights(freq: seq<nat>, m: Merging, v: nat)
    requires ConservedAt(freq, m, v) && ConservedAt(freq, m, v + 1)
    requires CountLess(m.p, v) <= CountLess(m.p, v + 1) <= v && CountLess(m.q, v) <= CountLess(m.q, v + 1)
    ensures SumOf(m.w, CountLess(m.p, v), CountLess(m.p, v + 1))
        + SumOf(freq, CountLess(m.q, v), CountLess(m.q, v + 1)) == m.w[v]
  {
    hide CountLess, Sum;
    SumOfSplit(m.w, CountLess(m.p, v), CountLess(m.p, v + 1), v);
    SumOfSplit(freq, CountLess(m.q, v), CountLess(m.q, v + 1), |freq|);
    SumOfSplit(m.w, CountLess(m.p, v + 1), v, v + 1);
  }

  /** The children of node v lie one deeper and weigh w[v]. */
  lemma Children(freq: seq<nat>, m: Merging, v: nat)
    requires Finished(freq, m) && v < |m.w|
    ensures var i, i', j, j' := CountLess(m.p, v), CountLess(m.p, v + 1), CountLess(m.q, v), CountLess(m.q, v + 1);
      && i <= i' <= v && j <= j' <= |freq|
      && (forall k :: i <= k < i' ==> NodeDepths(m)[k] == NodeDepths(m)[v] + 1)
      && (forall k :: j <= k < j' ==> LeafDepth(m)[k] == NodeDepths(m)[v] + 1)
      && SumOf(m.w, i, i') + SumOf(freq, j, j') == m.w[v]
  {
    ChildRanges(m, v);
    assert ConservedAt(freq, m, v) && ConservedAt(freq, m, v + 1);
    ChildWeights(freq, m, v);
    hide SumOf, CountLess, Binary, Grows, History;
  }

  lemma {:induction false} CountLessStep(s: seq<nat>, v: nat)
    ensures CountLess(s, v) <= CountLess(s, v + 1)
  {
    if s != [] {
      CountLessStep(s[..|s| - 1], v);
    }
  }

  /** Trading children of one depth for their parent, one level up. */
  lemma Trade(w: seq<nat>, nd: seq<nat>, freq: seq<nat>, ld: seq<nat>, i: nat, i': nat, j: nat, j': nat, v: nat)
    requires |nd| == |w| && |ld| == |freq| && i <= i' <= v < |w| && j <= j' <= |freq|
    requires forall k :: i <= k < i' ==> nd[k] == nd[v] + 1
    requires forall k :: j <= k < j' ==> ld[k] == nd[v] + 1
    requires SumOf(w, i, i') + SumOf(freq, j, j') == w[v]
    ensures Dot(w, nd, i, v) + Dot(freq, ld, j, |freq|) == Dot(w, nd, i', v + 1) + Dot(freq, ld, j', |freq|) + w[v]
  {
    var d := nd[v];
    assert Dot(w, nd, v, v + 1) == w[v] * d + Dot(w, nd, v + 1, v + 1);
    assert Dot(w, nd, v + 1, v + 1) == 0;
    DotSplit(w, nd, i, i', v);
    DotConstant(w, nd, i, i', d + 1);
    DotSplit(w, nd, i', v, v + 1);
    DotSplit(freq, ld, j, j', |freq|);
    DotConstant(freq, ld, j, j', d + 1);
    Distribute(SumOf(w, i, i'), SumOf(freq, j, j'), w[v], d);
  }

  /** Making node v trades its children for itself, one level up. */
  lemma PotentialStep(freq: seq<nat>, m: Merging, v: nat)
    requires Finished(freq, m) && v < |m.w|
    ensures Potential(freq, m, v) == Potential(freq, m, v + 1) + m.w[v]
  {
    var i, i', j, j' := CountLess(m.p, v), CountLess(m.p, v + 1), CountLess(m.q, v), CountLess(m.q, v + 1);
    Children(freq, m, v);
    hide SumOf, Dot, CountLess;
    Trade(m.w, NodeDepths(m), freq, LeafDepth(m), i, i', j, j', v);
  }

  lemma Distribute(a: nat, b: nat, w: nat, d: nat)
    requires a + b == w
    ensures a * (d + 1) + b * (d + 1) == w * d + w
  {
    assert (a + b) * (d + 1) == a * (d + 1) + b * (d + 1);
  }

  lemma {:induction false} PotentialFrom(freq: seq<nat>, m: Merging, v: nat)
    requires Finished(freq, m) && v <= |m.w|
    ensures Potential(freq, m, v) == SumOf(m.w, v, |m.w|)
    decreases |m.w| - v
  {
    if v < |m.w| {
      PotentialFrom(freq, m, v + 1);
      PotentialStep(freq, m, v);
      hide Potential;
    } else {
      PotentialEnds(freq, m);
    }
  }

  /** The root, at depth 0, is all that is live in the end. */
  lemma PotentialEnds(freq: seq<nat>, m: Merging)
    requires Finished(freq, m)
    ensures Potential(freq, m, |m.w|) == 0
  {
    CountLessAll(m.p, |m.w|);
    CountLessAll(m.q, |m.w|);
    hide Finished;
    assert Dot(m.w, NodeDepths(m), |m.p|, |m.p| + 1) == m.w[|m.p|] * 0;
  }

  lemma {:induction false} CountLessNone(s: seq<nat>)
    ensures CountLess(s, 0) == 0
  {
    if s != [] {
      CountLessNone(s[..|s| - 1]);
    }
  }

  /** The weighted length of the leaf depths is the sum of the internal weights. */
  lemma TreeCost(freq: seq<nat>, m: Merging)
    requires Finished(freq, m)
    ensures Dot(freq, LeafDepth(m), 0, |freq|) == Sum(m.w)
  {
    PotentialFrom(freq, m, 0);
    CountLessNone(m.p);
    CountLessNone(m.q);
    hide Finished;
    SumOfIsSum(m.w, 0);
    assert m.w[0..] == m.w;
  }

  // ----- the depth of a leaf and its weight -----

  lemma {:induction false} SumOfMember(s: seq<nat>, lo: nat, hi: nat, k: nat)
    requires lo <= k < hi <= |s|
    ensures s[k] <= SumOf(s, lo, hi)
    decreases hi - lo
  {
    if lo < k {
      SumOfMember(s, lo + 1, hi, k);
    }
  }

  /** Where the children of a node are among the leaves, and among the nodes. */
  lemma PlaceOf(s: seq<nat>, j: nat)
    requires Sorted(s) && j < |s|
    ensures CountLess(s, s[j]) <= j < CountLess(s, s[j] + 1)
  {
    CountLessSplits(s, s[j], j);
    CountLessSplits(s, s[j] + 1, j);
  }

  /** A leaf weighs no more than its parent. */
  lemma LeafLighter(freq: seq<nat>, m: Merging, j: nat)
    requires Finished(freq, m) && j < |m.q|
    ensures freq[j] <= m.w[m.q[j]]
  {
    Children(freq, m, m.q[j]);
    PlaceOf(m.q, j);
    hide CountLess, SumOf, Finished;
    SumOfMember(freq, CountLess(m.q, m.q[j]), CountLess(m.q, m.q[j] + 1), j);
  }

  /** Nor does a node. */
  lemma NodeLighter(freq: seq<nat>, m: Merging, i: nat)
    requires Finished(freq, m) && i < |m.p|
    ensures m.w[i] <= m.w[m.p[i]]
  {
    Children(freq, m, m.p[i]);
    PlaceOf(m.p, i);
    hide CountLess, SumOf, Finished;
    SumOfMember(m.w, CountLess(m.p, m.p[i]), CountLess(m.p, m.p[i] + 1), i);
  }

  lemma {:induction false} GrowthScale(d: nat, a: nat, b: nat, f: nat)
    ensures Growth(d, a * f, b * f) == Growth(d, a, b) * f
  {
    if d > 1 {
      GrowthScale(d - 1, a + b, a, f);
      assert (a + b) * f == a * f + b * f;
    }
  }

  /** The deeper the leaf, the lighter: the Fibonacci number of its depth, times its weight, is at most the total. */
  ghost predicate LightLeaves(freq: seq<nat>, lens: seq<nat>) {
    |lens| == |freq| && forall j :: 0 <= j < |lens| ==> LightLeaf(freq[j], lens[j], Sum(freq))
  }

  predicate LightLeaf(f: nat, l: nat, total: nat) {
    1 <= l && Growth(l - 1, 1, 1) * f <= total
  }

  lemma LeafWeight(freq: seq<nat>, m: Merging, j: nat)
    requires Finished(freq, m) && j < |m.q|
    ensures LightLeaf(freq[j], LeafDepth(m)[j], Sum(freq))
  {
    var i, f := m.q[j], freq[j];
    LeafLighter(freq, m, j);
    GrowthScale(Depth(m.p, i), 1, 1, f);
    if i < |m.p| {
      NodeLighter(freq, m, i);
      RootWeight(freq, m, i);
      GrowthMonotone(Depth(m.p, i), f, f, m.w[m.p[i]], m.w[i]);
    }
  }

  // ----- optimality -----

  /** The code that gives weight freq[i] a word of length lens[i]. */
  function CodeOf(freq: seq<nat>, lens: seq<nat>): (s: seq<Leaf>)
    requires |freq| == |lens|
    ensures |s| == |freq|
  {
    if freq == [] then [] else [Leaf(freq[0], lens[0])] + CodeOf(freq[1..], lens[1..])
  }

  /** No prefix code for these frequencies has a smaller weighted length. */
  ghost predicate Optimal(freq: seq<nat>, lens: seq<nat>) {
    && |lens| == |freq|
    && forall other: seq<nat>, n: nat :: |other| == |freq| && PrefixCode(CodeOf(freq, other), n) ==>
         Cost(CodeOf(freq, lens)) <= Cost(CodeOf(freq, other))
  }

  lemma {:induction false} CodeOfCost(freq: seq<nat>, lens: seq<nat>, i: nat)
    requires |freq| == |lens| && i <= |freq|
    ensures Cost(CodeOf(freq[i..], lens[i..])) == Dot(freq, lens, i, |freq|)
    decreases |freq| - i
  {
    if i < |freq| {
      CodeOfCost(freq, lens, i + 1);
      assert freq[i..][1..] == freq[i + 1..] && lens[i..][1..] == lens[i + 1..];
      var rest := CodeOf(freq[i + 1..], lens[i + 1..]);
      assert ([Leaf(freq[i], lens[i])] + rest)[1..] == rest;
    }
  }

  lemma {:induction false} CodeOfWeights(freq: seq<nat>, lens: seq<nat>)
    requires |freq| == |lens|
    ensures Weights(CodeOf(freq, lens)) == multiset(freq)
  {
    if freq != [] {
      CodeOfWeights(freq[1..], lens[1..]);
      var rest := CodeOf(freq[1..], lens[1..]);
      assert ([Leaf(freq[0], lens[0])] + rest)[1..] == rest;
      assert freq == [freq[0]] + freq[1..];
    }
  }

  /** Leaf depths of a finished merging are optimal code lengths. */
  lemma TreeIsOptimal(freq: seq<nat>, m: Merging)
    requires Finished(freq, m) && Best(freq, m)
    ensures Optimal(freq, LeafDepth(m))
  {
    TreeCost(freq, m);
    CodeOfCost(freq, LeafDepth(m), 0);
    assert freq[0..] == freq && LeafDepth(m)[0..] == LeafDepth(m);
    hide Finished, Cost, Sum;
    forall other: seq<nat>, n: nat | |other| == |freq| && PrefixCode(CodeOf(freq, other), n)
      ensures Sum(m.w) <= Cost(CodeOf(freq, other))
    {
      CodeOfWeights(freq, other);
      assert Achieves(multiset(freq), Cost(CodeOf(freq, other)));
    }
  }
}
