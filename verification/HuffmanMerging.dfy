/** Huffman's merging process as Moffat and Katajainen run it: two sorted queues sharing one array. */
module HuffmanMerging {
  import opened PrefixCost

  function Sum(s: seq<nat>): nat {
    if s == [] then 0 else s[0] + Sum(s[1..])
  }

  ghost predicate Sorted(s: seq<nat>) {
    forall i, j :: 0 <= i < j < |s| ==> s[i] <= s[j]
  }

  ghost predicate Positive(s: seq<nat>) {
    forall i :: 0 <= i < |s| ==> 0 < s[i]
  }

  lemma {:induction false} SumSnoc(s: seq<nat>, x: nat)
    ensures Sum(s + [x]) == Sum(s) + x
  {
    if s == [] {
      assert s + [x] == [x] && [x][1..] == [];
    } else {
      SumSnoc(s[1..], x);
      assert (s + [x])[1..] == s[1..] + [x];
    }
  }

  lemma {:induction false} SumCountsElements(s: seq<nat>)
    requires Positive(s)
    ensures |s| <= Sum(s)
  {
    if s != [] {
      SumCountsElements(s[1..]);
    }
  }

  lemma {:induction false} SumUpdate(s: seq<nat>, i: nat, v: nat)
    requires i < |s|
    ensures Sum(s[i := v]) + s[i] == Sum(s) + v
  {
    if i > 0 {
      SumUpdate(s[1..], i - 1, v);
      assert s[i := v][1..] == s[1..][i - 1 := v];
    } else {
      assert s[0 := v][1..] == s[1..];
    }
  }

  lemma {:induction false} SumZeros(s: seq<nat>)
    requires forall i :: 0 <= i < |s| ==> s[i] == 0
    ensures Sum(s) == 0
  {
    if s != [] {
      SumZeros(s[1..]);
    }
  }

  // ----- phase 1: merging -----

  /**
   The merging so far: w are the weights of the internal nodes in order of creation, p the parents of those
   already merged away, q the parents of the leaves already merged away, last the weight merged last.
   */
  datatype Merging = Merging(w: seq<nat>, p: seq<nat>, q: seq<nat>, last: nat)

  /**
   What the key array holds: parents of merged nodes, then weights of live internal nodes, then (from leaf on) the
   weights of the live leaves. A slot between the last two parts may hold anything.
   */
  ghost predicate Holds(ks: seq<nat>, freq: seq<nat>, m: Merging) {
    && |ks| == |freq|
    && |m.p| <= |m.w| < |m.q| <= |freq|
    && (forall i :: 0 <= i < |m.p| ==> ks[i] == m.p[i])
    && (forall i :: |m.p| <= i < |m.w| ==> ks[i] == m.w[i])
    && (forall i :: |m.q| <= i < |freq| ==> ks[i] == freq[i])
  }

  /** Internal nodes are merged in order, each before its parent is created. */
  ghost predicate Parents(p: seq<nat>, bound: nat) {
    && (forall i :: 0 <= i < |p| ==> i < p[i] <= bound)
    && Sorted(p)
  }

  /** How many entries of s are below v. */
  function CountLess(s: seq<nat>, v: nat): nat {
    if s == [] then 0 else CountLess(s[..|s| - 1], v) + if s[|s| - 1] < v then 1 else 0
  }

  /** Every node made so far has exactly two children; leaves too are merged in order. */
  ghost predicate Binary(m: Merging) {
    && Sorted(m.q)
    && (forall j :: 0 <= j < |m.q| ==> m.q[j] <= |m.w|)
    && (forall v :: 0 <= v <= |m.w| ==> CountLess(m.p, v) + CountLess(m.q, v) == 2 * v)
  }

  /** Weights were merged in ascending order. */
  ghost predicate Ascending(freq: seq<nat>, m: Merging) {
    && |m.p| <= |m.w| && |m.q| <= |freq|
    && Sorted(m.w) && Sorted(freq) && Positive(freq)
    && (forall i :: 0 <= i < |m.w| ==> 2 <= m.w[i])
    && (forall i :: |m.p| <= i < |m.w| ==> m.last <= m.w[i])
    && (forall i :: |m.q| <= i < |freq| ==> m.last <= freq[i])
  }

  /** If i, its parent and its grandparent exist, the grandparent weighs at least as much as the other two together. */
  ghost predicate GrowsAt(m: Merging, i: nat) {
    i < |m.p| <= |m.w| && m.p[i] < |m.p| && m.p[m.p[i]] < |m.w| ==>
      m.w[m.p[i]] + m.w[i] <= m.w[m.p[m.p[i]]]
  }

  ghost predicate Grows(m: Merging) {
    forall i :: 0 <= i < |m.p| ==> GrowsAt(m, i)
  }

  /** The live weights and what was taken in the current step add up to the total. */
  ghost predicate Conserved(freq: seq<nat>, m: Merging, taken: nat) {
    && |m.p| <= |m.w| && |m.q| <= |freq|
    && taken + Sum(m.w[|m.p|..]) + Sum(freq[|m.q|..]) == Sum(freq)
  }

  ghost predicate Consistent(ks: seq<nat>, freq: seq<nat>, m: Merging, taken: nat) {
    && Holds(ks, freq, m)
    && Parents(m.p, |m.w|)
    && Binary(m)
    && Ascending(freq, m)
    && Grows(m)
    && Conserved(freq, m, taken)
  }

  /** Nodes merged in earlier steps weigh at most low, and the newest node at most twice that. */
  ghost predicate Older(m: Merging, low: nat) {
    && (forall i :: 0 <= i < |m.p| <= |m.w| && m.p[i] < |m.w| ==> m.w[i] <= low)
    && 0 < |m.w| && m.w[|m.w| - 1] <= 2 * low
  }

  /** Between two steps. */
  ghost predicate Top(ks: seq<nat>, freq: seq<nat>, m: Merging) {
    && Consistent(ks, freq, m, 0)
    && |m.p| + |m.q| == 2 * |m.w|
    && (forall i :: 0 <= i < |m.p| ==> m.p[i] < |m.w|)
    && 0 < m.last
    && Older(m, m.last)
  }

  /** One weight, x, taken in the current step. */
  ghost predicate Mid(ks: seq<nat>, freq: seq<nat>, m: Merging, low: nat, x: nat) {
    && Consistent(ks, freq, m, x)
    && |m.p| + |m.q| == 2 * |m.w| + 1
    && low <= x == m.last
    && Older(m, low)
    && (forall j :: 0 <= j < |m.p| && m.p[j] == |m.w| ==> j == |m.p| - 1 && m.w[j] == x)
  }

  /** Both weights, x and y, taken. */
  ghost predicate Both(ks: seq<nat>, freq: seq<nat>, m: Merging, low: nat, x: nat, y: nat) {
    && Consistent(ks, freq, m, x + y)
    && |m.p| + |m.q| == 2 * |m.w| + 2
    && low <= x <= y == m.last
    && Older(m, low)
    && (forall j :: 0 <= j < |m.p| && m.p[j] == |m.w| ==> m.w[j] == x || m.w[j] == y)
  }

  /** Taking the lightest live internal node. */
  function TakeNode(m: Merging): Merging
    requires |m.p| < |m.w|
  {
    m.(p := m.p + [|m.w|], last := m.w[|m.p|])
  }

  /** Taking the lightest live leaf. */
  function TakeLeaf(freq: seq<nat>, m: Merging): Merging
    requires |m.q| < |freq|
  {
    m.(q := m.q + [|m.w|], last := freq[|m.q|])
  }

  /** Creating the node for the two weights taken. */
  function Join(m: Merging, taken: nat): Merging {
    m.(w := m.w + [taken])
  }

  lemma TakeNodeGrows(m: Merging)
    requires |m.p| < |m.w| && Grows(m)
    ensures Grows(TakeNode(m))
  {
    forall i | 0 <= i < |TakeNode(m).p| ensures GrowsAt(TakeNode(m), i) {
      assert i < |m.p| ==> GrowsAt(m, i);
    }
  }

  lemma TakeNodeConserved(freq: seq<nat>, m: Merging, taken: nat)
    requires |m.p| < |m.w| && Conserved(freq, m, taken)
    ensures Conserved(freq, TakeNode(m), taken + m.w[|m.p|])
  {
    assert m.w[|m.p|..][1..] == m.w[|m.p| + 1..];
  }

  lemma CountLessSnoc(s: seq<nat>, x: nat, v: nat)
    ensures CountLess(s + [x], v) == CountLess(s, v) + if x < v then 1 else 0
  {
    assert (s + [x])[..|s|] == s;
  }

  lemma {:induction false} CountLessAll(s: seq<nat>, v: nat)
    requires forall i :: 0 <= i < |s| ==> s[i] < v
    ensures CountLess(s, v) == |s|
  {
    if s != [] {
      CountLessAll(s[..|s| - 1], v);
    }
  }

  lemma TakeNodeBinary(m: Merging)
    requires |m.p| < |m.w| && Binary(m)
    ensures Binary(TakeNode(m))
  {
    forall v | 0 <= v <= |m.w| ensures CountLess(m.p + [|m.w|], v) == CountLess(m.p, v) {
      CountLessSnoc(m.p, |m.w|, v);
    }
  }

  lemma TakeLeafBinary(freq: seq<nat>, m: Merging)
    requires |m.q| < |freq| && Binary(m)
    ensures Binary(TakeLeaf(freq, m))
  {
    forall v | 0 <= v <= |m.w| ensures CountLess(m.q + [|m.w|], v) == CountLess(m.q, v) {
      CountLessSnoc(m.q, |m.w|, v);
    }
  }

  lemma JoinBinary(m: Merging, x: nat)
    requires Binary(m) && Parents(m.p, |m.w|) && |m.p| + |m.q| == 2 * |m.w| + 2
    ensures Binary(Join(m, x))
  {
    CountLessAll(m.p, |m.w| + 1);
    CountLessAll(m.q, |m.w| + 1);
  }

  lemma TakeNodeKeeps(ks: seq<nat>, freq: seq<nat>, m: Merging, taken: nat)
    requires Consistent(ks, freq, m, taken) && |m.p| < |m.w|
    requires |m.q| < |freq| ==> m.w[|m.p|] <= freq[|m.q|]
    ensures Consistent(ks[|m.p| := |m.w|], freq, TakeNode(m), taken + m.w[|m.p|])
  {
    hide Grows, Conserved, Sum, Binary;
    TakeNodeGrows(m);
    TakeNodeConserved(freq, m, taken);
    TakeNodeBinary(m);
  }

  lemma TakeLeafKeeps(ks: seq<nat>, freq: seq<nat>, m: Merging, taken: nat)
    requires Consistent(ks, freq, m, taken) && |m.q| < |freq|
    requires |m.p| < |m.w| ==> freq[|m.q|] <= m.w[|m.p|]
    ensures Consistent(ks, freq, TakeLeaf(freq, m), taken + freq[|m.q|])
  {
    var m' := TakeLeaf(freq, m);
    assert freq[|m.q|..][1..] == freq[|m.q| + 1..];
    TakeLeafBinary(freq, m);
    forall i | 0 <= i < |m'.p| ensures GrowsAt(m', i) {
      assert GrowsAt(m, i);
    }
    hide Binary, Parents, GrowsAt;
  }

  lemma JoinGrows(freq: seq<nat>, m: Merging, low: nat, x: nat, y: nat)
    requires |m.p| <= |m.w| && Parents(m.p, |m.w|) && Grows(m) && low <= x <= y && Older(m, low)
    requires forall j :: 0 <= j < |m.p| && m.p[j] == |m.w| ==> m.w[j] == x || m.w[j] == y
    ensures Grows(Join(m, x + y))
  {
    var m' := Join(m, x + y);
    forall i | 0 <= i < |m'.p| ensures GrowsAt(m', i) {
      assert GrowsAt(m, i);
      if m.p[i] < |m.p| && m.p[m.p[i]] == |m.w| {
        assert m.w[i] <= low;
      }
    }
  }

  lemma JoinConserved(freq: seq<nat>, m: Merging, x: nat)
    requires |m.p| <= |m.w| && Conserved(freq, m, x)
    ensures Conserved(freq, Join(m, x), 0) && x <= Sum(freq)
  {
    assert Join(m, x).w[|m.p|..] == m.w[|m.p|..] + [x];
    SumSnoc(m.w[|m.p|..], x);
  }

  lemma JoinAscending(freq: seq<nat>, m: Merging, low: nat, x: nat, y: nat)
    requires Ascending(freq, m) && Older(m, low) && 0 < low <= x <= y == m.last
    requires forall j :: 0 <= j < |m.p| ==> m.p[j] < |m.w| || m.w[j] == x || m.w[j] == y
    ensures Ascending(freq, Join(m, x + y))
    ensures Older(Join(m, x + y), y)
  {
  }

  lemma JoinHolds(ks: seq<nat>, freq: seq<nat>, m: Merging, x: nat)
    requires Holds(ks, freq, m) && Parents(m.p, |m.w|) && |m.p| + |m.q| == 2 * |m.w| + 2
    ensures Holds(ks[|m.w| := x], freq, Join(m, x)) && Parents(m.p, |m.w| + 1)
    ensures forall i :: 0 <= i < |m.p| ==> m.p[i] < |m.w| + 1
  {
  }

  lemma BothShape(ks: seq<nat>, freq: seq<nat>, m: Merging, x: nat, y: nat)
    requires Holds(ks, freq, m) && Parents(m.p, |m.w|) && |m.p| + |m.q| == 2 * |m.w| + 2
    requires forall j :: 0 <= j < |m.p| && m.p[j] == |m.w| ==> m.w[j] == x || m.w[j] == y
    ensures |m.p| <= |m.w| && |m.w| < |ks|
    ensures forall j :: 0 <= j < |m.p| ==> m.p[j] < |m.w| || m.w[j] == x || m.w[j] == y
  {
  }

  /** The node for x and y joins the queue. */
  lemma JoinKeeps(ks: seq<nat>, freq: seq<nat>, m: Merging, low: nat, x: nat, y: nat)
    requires Both(ks, freq, m, low, x, y) && |m.w| < |freq| - 1 && 0 < low
    ensures Top(ks[|m.w| := x + y], freq, Join(m, x + y))
    ensures x + y <= Sum(freq) && x <= y == m.last
  {
    hide Ascending, Parents, Holds, Grows, Conserved, Sum, Older, Binary;
    BothShape(ks, freq, m, x, y);
    JoinBinary(m, x + y);
    JoinGrows(freq, m, low, x, y);
    JoinConserved(freq, m, x + y);
    JoinAscending(freq, m, low, x, y);
    JoinHolds(ks, freq, m, x + y);
  }

  lemma TopShape(ks: seq<nat>, freq: seq<nat>, m: Merging)
    requires Top(ks, freq, m)
    ensures |m.p| < |m.w| < |m.q| <= |freq| == |ks| && |m.p| + |m.q| == 2 * |m.w|
    ensures ks[|m.p|] == m.w[|m.p|] && 0 < m.last <= m.w[|m.p|]
    ensures |m.q| < |freq| ==> ks[|m.q|] == freq[|m.q|] && m.last <= freq[|m.q|]
  {
  }

  lemma MidShape(ks: seq<nat>, freq: seq<nat>, m: Merging, low: nat, x: nat)
    requires Mid(ks, freq, m, low, x) && |m.w| < |freq| - 1
    ensures |m.p| <= |m.w| < |m.q| <= |freq| == |ks| && m.last == x
    ensures |m.q| == |freq| ==> |m.p| < |m.w|
    ensures |m.p| < |m.w| ==> ks[|m.p|] == m.w[|m.p|] && x <= m.w[|m.p|]
    ensures |m.q| < |freq| ==> ks[|m.q|] == freq[|m.q|] && x <= freq[|m.q|]
  {
  }

  lemma FirstIsNode(ks: seq<nat>, freq: seq<nat>, m: Merging)
    requires Top(ks, freq, m) && |m.p| < |m.w|
    requires |m.q| < |freq| ==> m.w[|m.p|] <= freq[|m.q|]
    ensures Mid(ks[|m.p| := |m.w|], freq, TakeNode(m), m.last, m.w[|m.p|])
  {
    TopShape(ks, freq, m);
    TakeNodeKeeps(ks, freq, m, 0);
    hide Consistent;
  }

  lemma FirstIsLeaf(ks: seq<nat>, freq: seq<nat>, m: Merging)
    requires Top(ks, freq, m) && |m.q| < |freq| && (|m.p| < |m.w| ==> freq[|m.q|] <= m.w[|m.p|])
    ensures Mid(ks, freq, TakeLeaf(freq, m), m.last, freq[|m.q|])
  {
    TopShape(ks, freq, m);
    TakeLeafKeeps(ks, freq, m, 0);
    hide Consistent;
  }

  lemma SecondIsNode(ks: seq<nat>, freq: seq<nat>, m: Merging, low: nat, x: nat)
    requires Mid(ks, freq, m, low, x) && |m.p| < |m.w| < |freq| - 1
    requires |m.q| < |freq| ==> m.w[|m.p|] <= freq[|m.q|]
    ensures Both(ks[|m.p| := |m.w|], freq, TakeNode(m), low, x, m.w[|m.p|])
  {
    MidShape(ks, freq, m, low, x);
    TakeNodeKeeps(ks, freq, m, x);
    hide Consistent;
  }

  lemma SecondIsLeaf(ks: seq<nat>, freq: seq<nat>, m: Merging, low: nat, x: nat)
    requires Mid(ks, freq, m, low, x) && |m.w| < |freq| - 1
    requires |m.q| < |freq| && (|m.p| < |m.w| ==> freq[|m.q|] <= m.w[|m.p|])
    ensures Both(ks, freq, TakeLeaf(freq, m), low, x, freq[|m.q|])
  {
    MidShape(ks, freq, m, low, x);
    TakeLeafKeeps(ks, freq, m, x);
    hide Consistent;
  }

  /** The slot of the node being built holds no queued weight. */
  lemma SlotFree(ks: seq<nat>, freq: seq<nat>, m: Merging, taken: nat, v: nat)
    requires Consistent(ks, freq, m, taken) && |m.w| < |ks|
    ensures Consistent(ks[|m.w| := v], freq, m, taken)
  {
    hide Parents, Ascending, Grows, Conserved, Binary;
  }

  lemma FirstMerge(freq: seq<nat>)
    requires |freq| >= 2 && Sorted(freq) && Positive(freq)
    ensures Conserved(freq, Merging([freq[0] + freq[1]], [], [0, 0], freq[1]), 0)
    ensures freq[0] + freq[1] <= Sum(freq)
  {
    assert freq[1..][1..] == freq[2..];
    assert Sum(freq) == freq[0] + (freq[1] + Sum(freq[2..]));
    var w := [freq[0] + freq[1]];
    assert w[0..] == w && w[1..] == [];
    assert Sum(w) == w[0] + Sum([]);
  }

  lemma CountsAtStart()
    ensures CountLess([], 0) == CountLess([], 1) == CountLess([0, 0], 0) == 0 && CountLess([0, 0], 1) == 2
  {
    assert [0, 0] == [0] + [0];
    CountLessSnoc([0], 0, 0);
    CountLessSnoc([0], 0, 1);
    assert [0] == [] + [0];
    CountLessSnoc([], 0, 0);
    CountLessSnoc([], 0, 1);
  }

  /** The first merge: the two lightest leaves. */
  lemma MergingStarts(freq: seq<nat>)
    requires |freq| >= 2 && Sorted(freq) && Positive(freq)
    ensures Top(freq[0 := freq[0] + freq[1]], freq, Merging([freq[0] + freq[1]], [], [0, 0], freq[1]))
    ensures freq[0] + freq[1] <= Sum(freq)
  {
    var m := Merging([freq[0] + freq[1]], [], [0, 0], freq[1]);
    FirstMerge(freq);
    FirstBinary(m);
    FirstAscending(freq, m);
    FirstHolds(freq, m);
    hide Conserved, Sum, Binary, Ascending, Holds, Parents, Grows, Older;
  }

  lemma FirstHolds(freq: seq<nat>, m: Merging)
    requires |freq| >= 2 && Sorted(freq) && Positive(freq)
    requires m == Merging([freq[0] + freq[1]], [], [0, 0], freq[1])
    ensures Holds(freq[0 := freq[0] + freq[1]], freq, m) && Parents(m.p, |m.w|) && Grows(m) && Older(m, m.last)
  {
  }

  lemma FirstBinary(m: Merging)
    requires |m.w| == 1 && m.p == [] && m.q == [0, 0]
    ensures Binary(m)
  {
    CountsAtStart();
    hide CountLess;
  }

  lemma FirstAscending(freq: seq<nat>, m: Merging)
    requires |freq| >= 2 && Sorted(freq) && Positive(freq)
    requires m.w == [freq[0] + freq[1]] && m.p == [] && |m.q| == 2 && m.last == freq[1]
    ensures Ascending(freq, m)
  {
  }

  lemma MidSlotFree(ks: seq<nat>, freq: seq<nat>, m: Merging, low: nat, x: nat, v: nat)
    requires Mid(ks, freq, m, low, x) && |m.w| < |ks|
    ensures Mid(ks[|m.w| := v], freq, m, low, x)
  {
    SlotFree(ks, freq, m, x, v);
    hide Consistent;
  }

  /** Live weights and the newest node are at most the total, so they fit 16 bits. */
  lemma Keys16FromSum(ks: seq<nat>, freq: seq<nat>, m: Merging)
    requires Top(ks, freq, m)
    ensures m.w[|m.p|] <= Sum(freq)
    ensures |m.q| < |freq| ==> freq[|m.q|] <= Sum(freq)
  {
  }

  lemma Keys16FromSum2(ks: seq<nat>, freq: seq<nat>, m: Merging, low: nat, x: nat)
    requires Mid(ks, freq, m, low, x)
    ensures |m.p| < |m.w| ==> x + m.w[|m.p|] <= Sum(freq)
    ensures |m.q| < |freq| ==> x + freq[|m.q|] <= Sum(freq)
  {
  }

  // ----- whole steps -----

  /** The choice the algorithm makes between the two queues: a node only when it is strictly lighter. */
  function Pick(freq: seq<nat>, m: Merging): Merging {
    if |m.p| < |m.w| && (|m.q| >= |freq| || m.w[|m.p|] < freq[|m.q|]) then TakeNode(m)
    else if |m.q| < |freq| then TakeLeaf(freq, m)
    else m
  }

  function Step(freq: seq<nat>, m: Merging): Merging {
    var one := Pick(freq, m);
    var two := Pick(freq, one);
    Join(two, one.last + two.last)
  }

  /** The sum of s[lo..hi]. */
  function SumOf(s: seq<nat>, lo: nat, hi: nat): nat
    requires hi <= |s|
    decreases hi - lo
  {
    if hi <= lo then 0 else s[lo] + SumOf(s, lo + 1, hi)
  }

  lemma {:induction false} SumOfIsSum(s: seq<nat>, lo: nat)
    requires lo <= |s|
    ensures SumOf(s, lo, |s|) == Sum(s[lo..])
    decreases |s| - lo
  {
    if lo < |s| {
      SumOfIsSum(s, lo + 1);
      assert s[lo..][1..] == s[lo + 1..];
    }
  }

  lemma {:induction false} SumOfExtend(s: seq<nat>, x: nat, lo: nat, hi: nat)
    requires hi <= |s|
    ensures SumOf(s + [x], lo, hi) == SumOf(s, lo, hi)
    decreases hi - lo
  {
    if lo < hi {
      SumOfExtend(s, x, lo + 1, hi);
    }
  }

  lemma {:induction false} SumOfSplit(s: seq<nat>, lo: nat, mid: nat, hi: nat)
    requires lo <= mid <= hi <= |s|
    ensures SumOf(s, lo, hi) == SumOf(s, lo, mid) + SumOf(s, mid, hi)
    decreases mid - lo
  {
    if lo < mid {
      SumOfSplit(s, lo + 1, mid, hi);
    }
  }

  /** When v internal nodes had been made, the weights then live added up to the total. */
  ghost predicate ConservedAt(freq: seq<nat>, m: Merging, v: nat) {
    var i, j := CountLess(m.p, v), CountLess(m.q, v);
    i <= v <= |m.w| && j <= |freq| && SumOf(m.w, i, v) + SumOf(freq, j, |freq|) == Sum(freq)
  }

  ghost predicate History(freq: seq<nat>, m: Merging) {
    forall v :: 0 <= v <= |m.w| ==> ConservedAt(freq, m, v)
  }

  lemma PickCounts(freq: seq<nat>, m: Merging, v: nat)
    requires v <= |m.w|
    ensures Pick(freq, m).w == m.w
    ensures CountLess(Pick(freq, m).p, v) == CountLess(m.p, v)
    ensures CountLess(Pick(freq, m).q, v) == CountLess(m.q, v)
  {
    CountLessSnoc(m.p, |m.w|, v);
    CountLessSnoc(m.q, |m.w|, v);
  }

  lemma HistoryStep(ks: seq<nat>, freq: seq<nat>, m: Merging)
    requires History(freq, m) && Top(ks, freq, Step(freq, m)) && |Step(freq, m).w| == |m.w| + 1
    ensures History(freq, Step(freq, m))
  {
    TopConserved(ks, freq, Step(freq, m));
    forall v | 0 <= v <= |m.w| ensures ConservedAt(freq, Step(freq, m), v) {
      assert ConservedAt(freq, m, v);
      PickCounts(freq, m, v);
      PickCounts(freq, Pick(freq, m), v);
      ConservedKept(freq, m, Step(freq, m), v);
    }
  }

  lemma ConservedKept(freq: seq<nat>, m: Merging, m': Merging, v: nat)
    requires ConservedAt(freq, m, v) && |m'.w| == |m.w| + 1 && m'.w[..|m.w|] == m.w
    requires CountLess(m'.p, v) == CountLess(m.p, v) && CountLess(m'.q, v) == CountLess(m.q, v)
    ensures ConservedAt(freq, m', v)
  {
    hide Sum, CountLess;
    assert m'.w == m.w + [m'.w[|m.w|]];
    SumOfExtend(m.w, m'.w[|m.w|], CountLess(m.p, v), v);
  }

  lemma TopConserved(ks: seq<nat>, freq: seq<nat>, m: Merging)
    requires Top(ks, freq, m)
    ensures ConservedAt(freq, m, |m.w|)
    ensures CountLess(m.p, |m.w|) == |m.p| && CountLess(m.q, |m.w|) == |m.q|
  {
    CountLessAll(m.p, |m.w|);
    assert CountLess(m.p, |m.w|) + CountLess(m.q, |m.w|) == 2 * |m.w|;
    SumOfIsSum(m.w, |m.p|);
    SumOfIsSum(freq, |m.q|);
  }

  // ----- optimality -----

  /** The weights in the two queues. */
  function Live(freq: seq<nat>, m: Merging): multiset<nat> {
    if |m.p| <= |m.w| && |m.q| <= |freq| then multiset(m.w[|m.p|..]) + multiset(freq[|m.q|..]) else multiset{}
  }

  /** The merges made so far are optimal: they are paid for by every code for the leaves. */
  ghost predicate Best(freq: seq<nat>, m: Merging) {
    Bounded(multiset(freq), Live(freq, m), Sum(m.w))
  }

  lemma MultisetTail(s: seq<nat>, i: nat)
    requires i < |s|
    ensures multiset(s[i..]) == multiset{s[i]} + multiset(s[i + 1..])
  {
    assert s[i..] == [s[i]] + s[i + 1..];
  }

  lemma PickTakes(freq: seq<nat>, m: Merging)
    requires |m.p| <= |m.w| && |m.q| <= |freq| && (|m.p| < |m.w| || |m.q| < |freq|)
    ensures Live(freq, m) == multiset{Pick(freq, m).last} + Live(freq, Pick(freq, m))
  {
    if |m.p| < |m.w| && (|m.q| >= |freq| || m.w[|m.p|] < freq[|m.q|]) {
      TakeNodeTakes(freq, m);
    } else {
      TakeLeafTakes(freq, m);
    }
    hide Live, TakeNode, TakeLeaf;
  }

  lemma TakeNodeTakes(freq: seq<nat>, m: Merging)
    requires |m.p| < |m.w| && |m.q| <= |freq|
    ensures Live(freq, m) == multiset{TakeNode(m).last} + Live(freq, TakeNode(m))
  {
    MultisetTail(m.w, |m.p|);
  }

  lemma TakeLeafTakes(freq: seq<nat>, m: Merging)
    requires |m.p| <= |m.w| && |m.q| < |freq|
    ensures Live(freq, m) == multiset{TakeLeaf(freq, m).last} + Live(freq, TakeLeaf(freq, m))
  {
    MultisetTail(freq, |m.q|);
  }

  lemma LiveAtLeastLast(freq: seq<nat>, m: Merging)
    requires Ascending(freq, m)
    ensures forall x :: x in Live(freq, m) ==> m.last <= x
  {
    forall x | x in Live(freq, m) ensures m.last <= x {
      if x in multiset(m.w[|m.p|..]) {
        assert x in m.w[|m.p|..];
      } else {
        assert x in freq[|m.q|..];
      }
    }
  }

  lemma JoinLive(freq: seq<nat>, m: Merging, x: nat)
    requires |m.p| <= |m.w| && |m.q| <= |freq|
    ensures Live(freq, Join(m, x)) == Live(freq, m) + multiset{x}
  {
    assert Join(m, x).w[|m.p|..] == m.w[|m.p|..] + [x];
  }

  /** Both picks were possible and the second is at least the first. */
  ghost predicate Picked(freq: seq<nat>, m: Merging, x: nat, y: nat) {
    var one := Pick(freq, m);
    var two := Pick(freq, one);
    && Ascending(freq, two) && x == one.last && y == two.last && x <= y
    && |m.p| <= |m.w| && |m.q| <= |freq|
    && |one.p| + |one.q| == |m.p| + |m.q| + 1 && |two.p| + |two.q| == |m.p| + |m.q| + 2
  }

  lemma PairUp(x: nat, y: nat, rest: multiset<nat>)
    ensures multiset{x} + (multiset{y} + rest) == multiset{x, y} + rest
  {
  }

  lemma PickPossible(freq: seq<nat>, m: Merging)
    requires |m.p| <= |m.w| && |m.q| <= |freq| && |Pick(freq, m).p| + |Pick(freq, m).q| > |m.p| + |m.q|
    ensures |m.p| < |m.w| || |m.q| < |freq|
    ensures |Pick(freq, m).p| <= |Pick(freq, m).w| && |Pick(freq, m).q| <= |freq|
  {
  }

  lemma PickedLive(freq: seq<nat>, m: Merging, x: nat, y: nat) returns (rest: multiset<nat>)
    requires Picked(freq, m, x, y)
    ensures Live(freq, m) == multiset{x, y} + rest
    ensures Live(freq, Step(freq, m)) == rest + multiset{x + y}
    ensures forall w :: w in rest ==> y <= w
  {
    hide Ascending, Live, Pick;
    var one := Pick(freq, m);
    var two := Pick(freq, one);
    rest := Live(freq, two);
    PickPossible(freq, m);
    PickTakes(freq, m);
    PickPossible(freq, one);
    PickTakes(freq, one);
    LiveAtLeastLast(freq, two);
    JoinLive(freq, two, x + y);
    PairUp(x, y, rest);
  }

  lemma BestStep(freq: seq<nat>, m: Merging, x: nat, y: nat)
    requires Best(freq, m) && Picked(freq, m, x, y)
    ensures Best(freq, Step(freq, m))
  {
    var rest := PickedLive(freq, m, x, y);
    SumSnoc(m.w, x + y);
    StepWeights(freq, m, x, y);
    hide Picked, Live, Step, Sum, Bounded, Pick;
    BoundedStep(multiset(freq), rest, Sum(m.w), x, y);
  }

  lemma StepWeights(freq: seq<nat>, m: Merging, x: nat, y: nat)
    requires Picked(freq, m, x, y)
    ensures Step(freq, m).w == m.w + [x + y]
  {
    PickCounts(freq, m, 0);
    PickCounts(freq, Pick(freq, m), 0);
  }

  lemma LiveAtStart(freq: seq<nat>, m: Merging)
    requires |freq| >= 2 && m == Merging([freq[0] + freq[1]], [], [0, 0], freq[1])
    ensures Live(freq, m) == multiset(freq[2..]) + multiset{freq[0] + freq[1]}
    ensures multiset(freq) == multiset{freq[0], freq[1]} + multiset(freq[2..])
    ensures Sum(m.w) == freq[0] + freq[1]
  {
    MultisetTail(freq, 0);
    MultisetTail(freq, 1);
    assert freq[0..] == freq;
    assert m.w[0..] == m.w;
    assert Sum(m.w) == m.w[0] + Sum([]);
    PairUp(freq[0], freq[1], multiset(freq[2..]));
  }

  lemma BestAtStart(freq: seq<nat>)
    requires |freq| >= 2 && Sorted(freq)
    ensures Best(freq, Merging([freq[0] + freq[1]], [], [0, 0], freq[1]))
  {
    var x, y, rest := freq[0], freq[1], multiset(freq[2..]);
    LiveAtStart(freq, Merging([x + y], [], [0, 0], y));
    forall w | w in rest ensures y <= w {
      assert w in freq[2..];
    }
    BoundedStart(multiset(freq));
    hide Live, Sum, Bounded;
    BoundedStep(multiset(freq), rest, 0, x, y);
  }

  lemma HistoryAtStart(freq: seq<nat>)
    requires |freq| >= 2 && Sorted(freq) && Positive(freq)
    ensures History(freq, Merging([freq[0] + freq[1]], [], [0, 0], freq[1]))
  {
    MergingStarts(freq);
    TopConserved(freq[0 := freq[0] + freq[1]], freq, Merging([freq[0] + freq[1]], [], [0, 0], freq[1]));
    CountsAtStart();
    SumOfIsSum(freq, 0);
    assert freq[0..] == freq;
    hide Top, Sum, CountLess;
  }

  /** The state between steps, with its history and optimality. */
  ghost predicate Built(ks: seq<nat>, freq: seq<nat>, m: Merging) {
    Top(ks, freq, m) && History(freq, m) && Best(freq, m)
  }

  lemma BuiltAtStart(freq: seq<nat>)
    requires |freq| >= 2 && Sorted(freq) && Positive(freq)
    ensures Built(freq[0 := freq[0] + freq[1]], freq, Merging([freq[0] + freq[1]], [], [0, 0], freq[1]))
    ensures freq[0] + freq[1] <= Sum(freq)
  {
    MergingStarts(freq);
    HistoryAtStart(freq);
    BestAtStart(freq);
    hide Top, History, Best;
  }

  ghost predicate IsPick(freq: seq<nat>, m: Merging, m': Merging) {
    m' == Pick(freq, m)
  }

  ghost predicate IsJoin(freq: seq<nat>, m: Merging, m': Merging) {
    m' == Join(Pick(freq, m), m.last + m'.last) && m.last <= m'.last
  }

  /** A whole step keeps the history and optimality. */
  lemma StepKeeps(ks0: seq<nat>, ks: seq<nat>, freq: seq<nat>, m: Merging, m1: Merging, m': Merging)
    requires Built(ks0, freq, m) && Top(ks, freq, m') && IsPick(freq, m, m1) && IsJoin(freq, m1, m')
    ensures Built(ks, freq, m')
  {
    TopShape(ks0, freq, m);
    PickCounts(freq, m, 0);
    PickCounts(freq, m1, 0);
    StepPicked(ks, freq, m, m1, m');
    StepIs(freq, m, m1, m');
    hide Top, Pick, Best, Step, Join, Picked;
    HistoryStep(ks, freq, m);
    BestStep(freq, m, m1.last, m'.last);
  }

  lemma StepIs(freq: seq<nat>, m: Merging, m1: Merging, m': Merging)
    requires IsPick(freq, m, m1) && IsJoin(freq, m1, m')
    ensures m' == Step(freq, m)
  {
  }

  lemma StepPicked(ks: seq<nat>, freq: seq<nat>, m: Merging, m1: Merging, m': Merging)
    requires Top(ks, freq, m') && IsPick(freq, m, m1) && IsJoin(freq, m1, m')
    requires |m.p| <= |m.w| && |m.q| <= |freq| && |m.p| + |m.q| == 2 * |m.w|
    ensures Picked(freq, m, m1.last, m'.last)
  {
    TopAscending(ks, freq, m');
    PickCounts(freq, m, 0);
    PickCounts(freq, m1, 0);
    var two := Pick(freq, m1);
    hide Top, Ascending, Pick;
    assert two.w == m'.w[..|two.w|];
    JoinedAscending(freq, two, m');
    PickGrows(freq, m);
    PickGrows(freq, m1);
  }

  lemma PickGrows(freq: seq<nat>, m: Merging)
    ensures |Pick(freq, m).p| + |Pick(freq, m).q| <= |m.p| + |m.q| + 1
  {
  }

  lemma TopAscending(ks: seq<nat>, freq: seq<nat>, m: Merging)
    requires Top(ks, freq, m)
    ensures Ascending(freq, m) && |m.p| + |m.q| == 2 * |m.w| && |m.p| < |m.w| && |m.q| <= |freq|
  {
  }

  lemma JoinedAscending(freq: seq<nat>, m: Merging, m': Merging)
    requires Ascending(freq, m') && |m.p| <= |m.w| == |m'.w| - 1
    requires m.p == m'.p && m.q == m'.q && m.last == m'.last && m.w == m'.w[..|m.w|]
    ensures Ascending(freq, m)
  {
    assert forall i :: 0 <= i < |m.w| ==> m.w[i] == m'.w[i];
  }
}
