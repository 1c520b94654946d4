/** The in-place minimum-redundancy code lengths of Moffat and Katajainen. */
module MinimumRedundancy {
  import opened Bits
  import opened RadixSort
  import opened HuffmanMerging
  import opened HuffmanTree

  function KeysOf(s: seq<SymFreq>): (k: seq<nat>)
    ensures |k| == |s| && forall i :: 0 <= i < |s| ==> k[i] == s[i].key
  {
    seq(|s|, i requires 0 <= i < |s| => s[i].key)
  }

  /** The keys of the first n records of an array. */
  ghost function Ks(a: array<SymFreq>, n: nat): (k: seq<nat>)
    requires n <= a.Length
    reads a
    ensures |k| == n
  {
    KeysOf(a[..n])
  }

  lemma SetKey(s: seq<SymFreq>, i: nat, k: nat)
    requires i < |s|
    ensures KeysOf(s[i := s[i].(key := k)]) == KeysOf(s)[i := k]
  {
  }

  /** Overwrites one key, a 16-bit field. */
  method StoreKey(a: array<SymFreq>, n: nat, i: nat, k: nat)
    requires i < n <= a.Length && k < 65536
    modifies a
    ensures Ks(a, n) == old(Ks(a, n))[i := k]
    ensures forall i :: 0 <= i < n ==> a[i].sym == old(a[i].sym)
  {
    SetKey(a[..n], i, k);
    a[i] := a[i].(key := k % 65536);
    assert a[..n] == old(a[..n])[i := old(a[i]).(key := k)];
  }

  /** Takes the lightest weight as the first child of node next. */
  method TakeFirst(a: array<SymFreq>, n: nat, root: nat, leaf: nat, next: nat, ghost freq: seq<nat>, ghost m: Merging)
    returns (root': nat, leaf': nat, ghost m': Merging)
    requires 2 <= n <= a.Length && next < n - 1 && n < 65536 && Sum(freq) < 65536
    requires Top(Ks(a, n), freq, m) && root == |m.p| && leaf == |m.q| && next == |m.w|
    modifies a
    ensures Mid(Ks(a, n), freq, m', m.last, Ks(a, n)[next])
    ensures root' == |m'.p| && leaf' == |m'.q| && |m'.w| == |m.w| && IsPick(freq, m, m')
    ensures forall i :: 0 <= i < n ==> a[i].sym == old(a[i].sym)
  {
    hide Consistent, Mid, Sum, Top, Sorted, Positive, Older, Ascending, Parents, Grows, Holds, Conserved, Binary;
    ghost var ks := Ks(a, n);
    TopShape(ks, freq, m);
    Keys16FromSum(ks, freq, m);
    if leaf >= n || a[root].key < a[leaf].key {
      FirstIsNode(ks, freq, m);
      m' := TakeNode(m);
      StoreKey(a, n, next, a[root].key);
      StoreKey(a, n, root, next);
      MidSlotFree(ks[root := next], freq, m', m.last, ks[root], ks[root]);
      assert Ks(a, n) == ks[root := next][next := ks[root]];
      root', leaf' := root + 1, leaf;
    } else {
      FirstIsLeaf(ks, freq, m);
      m' := TakeLeaf(freq, m);
      StoreKey(a, n, next, a[leaf].key);
      MidSlotFree(ks, freq, m', m.last, ks[leaf], ks[leaf]);
      root', leaf' := root, leaf + 1;
    }
  }

  /** Takes the lightest weight left as the second child of node next, completing it. */
  method TakeSecond(a: array<SymFreq>, n: nat, root: nat, leaf: nat, next: nat, ghost low: nat, ghost freq: seq<nat>,
                    ghost m: Merging)
    returns (root': nat, leaf': nat, ghost m': Merging)
    requires 2 <= n <= a.Length && next < n - 1 && n < 65536 && Sum(freq) < 65536 && 0 < low
    requires Mid(Ks(a, n), freq, m, low, Ks(a, n)[next])
    requires root == |m.p| && leaf == |m.q| && next == |m.w| && |freq| == n
    modifies a
    ensures Top(Ks(a, n), freq, m')
    ensures root' == |m'.p| && leaf' == |m'.q| && |m'.w| == next + 1
    ensures IsJoin(freq, m, m')
    ensures forall i :: 0 <= i < n ==> a[i].sym == old(a[i].sym)
  {
    hide Consistent, Mid, Sum, Top, Both, Sorted, Positive, Older, Ascending, Parents, Grows, Holds, Conserved, Binary;
    ghost var ks := Ks(a, n);
    ghost var x := ks[next];
    MidShape(ks, freq, m, low, x);
    Keys16FromSum2(ks, freq, m, low, x);
    if leaf >= n || (root < next && a[root].key < a[leaf].key) {
      SecondIsNode(ks, freq, m, low, x);
      ghost var y := ks[root];
      JoinKeeps(ks[root := next], freq, TakeNode(m), low, x, y);
      m' := Join(TakeNode(m), x + y);
      StoreKey(a, n, next, (a[next].key + a[root].key) % 65536);
      StoreKey(a, n, root, next);
      assert Ks(a, n) == ks[root := next][next := x + y];
      root', leaf' := root + 1, leaf;
    } else {
      SecondIsLeaf(ks, freq, m, low, x);
      ghost var y := ks[leaf];
      JoinKeeps(ks, freq, TakeLeaf(freq, m), low, x, y);
      m' := Join(TakeLeaf(freq, m), x + y);
      StoreKey(a, n, next, (a[next].key + a[leaf].key) % 65536);
      root', leaf' := root, leaf + 1;
    }
  }

  /** One merge: node next gets the two lightest weights as children. */
  method MergeStep(a: array<SymFreq>, n: nat, root: nat, leaf: nat, next: nat, ghost freq: seq<nat>, ghost m: Merging)
    returns (root': nat, leaf': nat, ghost m': Merging)
    requires 2 <= n <= a.Length && next < n - 1 && n < 65536 && Sum(freq) < 65536
    requires Built(Ks(a, n), freq, m) && root == |m.p| && leaf == |m.q| && next == |m.w| && |freq| == n
    modifies a
    ensures Built(Ks(a, n), freq, m')
    ensures root' == |m'.p| && leaf' == |m'.q| && |m'.w| == next + 1
    ensures forall i :: 0 <= i < n ==> a[i].sym == old(a[i].sym)
  {
    ghost var ks0 := Ks(a, n);
    BuiltTop(ks0, freq, m);
    hide *;
    ghost var m1;
    root', leaf', m1 := TakeFirst(a, n, root, leaf, next, freq, m);
    root', leaf', m' := TakeSecond(a, n, root', leaf', next, m.last, freq, m1);
    StepKeeps(ks0, Ks(a, n), freq, m, m1, m');
  }

  lemma BuiltTop(ks: seq<nat>, freq: seq<nat>, m: Merging)
    requires Built(ks, freq, m)
    ensures Top(ks, freq, m) && 0 < m.last
  {
    TopShape(ks, freq, m);
  }

  /** Phase 1: repeatedly merges the two lightest weights, leaving parent indices behind. */
  method Merge(a: array<SymFreq>, n: nat) returns (ghost m: Merging)
    requires 2 <= n <= a.Length
    requires var freq := Ks(a, n); Sorted(freq) && Positive(freq) && Sum(freq) < 65536
    modifies a
    ensures Built(Ks(a, n), old(Ks(a, n)), m) && |m.w| == n - 1
    ensures forall i :: 0 <= i < n ==> a[i].sym == old(a[i].sym)
  {
    ghost var freq := Ks(a, n);
    BuiltAtStart(freq);
    SumCountsElements(freq);
    hide Built, Sum;
    StoreKey(a, n, 0, (a[0].key + a[1].key) % 65536);
    m := Merging([freq[0] + freq[1]], [], [0, 0], freq[1]);
    var root, leaf, next := 0, 2, 1;
    while next < n - 1
      invariant 1 <= next <= n - 1
      invariant Built(Ks(a, n), freq, m)
      invariant root == |m.p| && leaf == |m.q| && next == |m.w|
      invariant forall i :: 0 <= i < n ==> a[i].sym == old(a[i].sym)
    {
      root, leaf, m := MergeStep(a, n, root, leaf, next, freq, m);
      next := next + 1;
    }
  }

  // ----- phase 2: parents to depths -----

  /** Nodes after next hold their depths, the others still their parents. */
  ghost predicate Descended(ks: seq<nat>, p: seq<nat>, next: int) {
    && Parents(p, |p|) && |p| < |ks|
    && (forall i :: 0 <= i <= next < |p| ==> ks[i] == p[i])
    && (forall i :: 0 <= i <= |p| && next < i ==> ks[i] == Depth(p, i))
  }

  lemma DescendStep(ks: seq<nat>, p: seq<nat>, next: nat)
    requires Descended(ks, p, next) && next < |p|
    ensures ks[next] == p[next] <= |p| && ks[p[next]] == Depth(p, p[next])
    ensures Descended(ks[next := ks[p[next]] + 1], p, next - 1)
  {
  }

  lemma DescendStarts(ks: seq<nat>, p: seq<nat>)
    requires Parents(p, |p|) && |p| < |ks| && (forall i :: 0 <= i < |p| ==> ks[i] == p[i]) && ks[|p|] == 0
    ensures Descended(ks, p, |p| - 1)
  {
  }

  lemma KsAt(a: array<SymFreq>, n: nat, i: nat)
    requires i < n <= a.Length
    ensures Ks(a, n)[i] == a[i].key
  {
  }

  /** Replaces the parent of node next by its depth, one more than the parent's. */
  method DescendOne(a: array<SymFreq>, n: nat, next: nat, ghost freq: seq<nat>, ghost m: Merging)
    requires 2 <= n <= a.Length && n == |freq| && Finished(freq, m) && Sum(freq) < 65536 && |m.p| == n - 2
    requires next < n - 2 && Descended(Ks(a, n), m.p, next)
    modifies a
    ensures Descended(Ks(a, n), m.p, next - 1)
    ensures forall i :: 0 <= i < n ==> a[i].sym == old(a[i].sym)
  {
    FinishedShape(freq, m);
    hide *;
    DescendStep(Ks(a, n), m.p, next);
    KsAt(a, n, next);
    DepthBound(freq, m, m.p[next]);
    KsAt(a, n, m.p[next]);
    StoreKey(a, n, next, (a[a[next].key].key + 1) % 65536);
  }

  method Descend(a: array<SymFreq>, n: nat, ghost freq: seq<nat>, ghost m: Merging)
    requires 2 <= n <= a.Length && n == |freq| && Finished(freq, m) && Sum(freq) < 65536
    requires forall i :: 0 <= i < n - 2 ==> Ks(a, n)[i] == m.p[i]
    modifies a
    ensures Descended(Ks(a, n), m.p, -1) && |m.p| == n - 2
    ensures forall i :: 0 <= i < n ==> a[i].sym == old(a[i].sym)
  {
    FinishedShape(freq, m);
    hide *;
    StoreKey(a, n, n - 2, 0);
    DescendStarts(Ks(a, n), m.p);
    var next := n - 3;
    while next >= 0
      invariant -1 <= next <= n - 3
      invariant Descended(Ks(a, n), m.p, next)
      invariant forall i :: 0 <= i < n ==> a[i].sym == old(a[i].sym)
    {
      DescendOne(a, n, next, freq, m);
      next := next - 1;
    }
  }

  // ----- phase 3: internal depths to leaf depths -----

  /** The share of a code space of 2^32 taken by codes of the given lengths. */
  function Space(lens: seq<nat>): nat
  {
    if lens == [] then 0 else Space(lens[1..]) + if lens[0] <= 32 then Shl(1, 32 - lens[0]) else 0
  }

  /**
   Before level d, where avbl nodes lie: internal nodes below r are those at depth d or more, leaves below r + avbl
   those at depth d or more; the other leaves hold their depths.
   */
  ghost predicate Level(ks: seq<nat>, m: Merging, d: nat, r: nat, avbl: nat) {
    && Tree(m) && |ks| == |m.q| && r <= |m.p| + 1 && r + avbl <= |ks|
    && (forall i :: 0 <= i < r ==> ks[i] == Depth(m.p, i))
    && (forall i :: 0 <= i <= |m.p| ==> (i < r <==> d <= Depth(m.p, i)))
    && (forall j :: 0 <= j < |ks| ==> (j < r + avbl <==> d <= Depth(m.p, m.q[j]) + 1))
    && (forall j :: r + avbl <= j < |ks| ==> ks[j] == Depth(m.p, m.q[j]) + 1)
  }

  /** Level d + 1 starts at r', the children of the r - r' nodes of level d available. */
  ghost predicate NextStart(m: Merging, d: nat, r: nat, avbl: nat, r': nat) {
    && Tree(m) && r' <= r && r' <= |m.p| && r - r' <= avbl && r' + 2 * (r - r') <= |m.q|
    && (forall i :: 0 <= i <= |m.p| ==> (i < r' <==> d + 1 <= Depth(m.p, i)))
    && (forall j :: 0 <= j < |m.q| ==> (j < r' + 2 * (r - r') <==> d + 1 <= Depth(m.p, m.q[j]) + 1))
  }

  /** Nodes r' to r - 1 being those at depth d exactly, the next level starts at r' with their children available. */
  lemma NextLevel(ks: seq<nat>, m: Merging, d: nat, r: nat, avbl: nat, r': nat)
    requires Level(ks, m, d, r, avbl) && r' <= r
    requires forall i :: r' <= i < r ==> ks[i] == d
    requires r' > 0 ==> ks[r' - 1] != d
    ensures NextStart(m, d, r, avbl, r')
  {
    forall i | 0 <= i <= |m.p| ensures i < r' <==> d + 1 <= Depth(m.p, i) {
      if i < r' {
        DepthFalls(m.p, i, r' - 1);
      }
    }
    ChildrenOf(m, d, r, r');
    assert r + avbl < |ks| ==> Depth(m.p, m.q[r + avbl]) + 1 < d;
  }

  /** The leaves below the nodes before r are those before 2r - r'. */
  lemma ChildrenOf(m: Merging, d: nat, r: nat, r': nat)
    requires Tree(m) && r' <= |m.p| && r' <= r <= |m.p| + 1
    requires forall i :: 0 <= i <= |m.p| ==> (i < r <==> d <= Depth(m.p, i))
    requires forall i :: 0 <= i <= |m.p| ==> (i < r' <==> d + 1 <= Depth(m.p, i))
    ensures 2 * r - r' <= |m.q|
    ensures forall j :: 0 <= j < |m.q| ==> (j < 2 * r - r' <==> d <= Depth(m.p, m.q[j]))
  {
    ParentsBelow(m.p, d, r, r');
    assert CountLess(m.p, r) + CountLess(m.q, r) == 2 * r;
    CountLessFull(m.q, r);
    forall j | 0 <= j < |m.q| ensures j < 2 * r - r' <==> d <= Depth(m.p, m.q[j]) {
      CountLessSplits(m.q, r, j);
    }
  }

  lemma ParentsBelow(p: seq<nat>, d: nat, r: nat, r': nat)
    requires Parents(p, |p|) && r <= |p| + 1 && r' <= |p|
    requires forall i :: 0 <= i <= |p| ==> (i < r <==> d <= Depth(p, i))
    requires forall i :: 0 <= i <= |p| ==> (i < r' <==> d + 1 <= Depth(p, i))
    ensures CountLess(p, r) == r'
  {
    CountLessFull(p, r);
    if r' < |p| {
      CountLessSplits(p, r, r');
      assert Depth(p, r') == Depth(p, p[r']) + 1;
    }
    if r' > 0 {
      CountLessSplits(p, r, r' - 1);
      assert Depth(p, r' - 1) == Depth(p, p[r' - 1]) + 1;
    }
  }

  /** The deepest nodes left are at the current level. */
  lemma LevelProgress(ks: seq<nat>, m: Merging, d: nat, r: nat, avbl: nat)
    requires Level(ks, m, d, r, avbl) && 0 < r
    ensures ks[r - 1] == d
  {
    if r - 1 < |m.p| {
      assert r <= m.p[r - 1];
      assert Depth(m.p, m.p[r - 1]) < d;
    }
  }

  lemma LevelSpace(ks: seq<nat>, i: nat, d: nat, avbl: nat)
    requires 0 < i <= |ks| && d <= 32 && 0 < avbl
    requires Space(ks[i..]) + Shl(avbl, 32 - d) == 0x1_0000_0000
    ensures Space(ks[i - 1 := d][i - 1..]) + Shl(avbl - 1, 32 - d) == 0x1_0000_0000
  {
    var ks' := ks[i - 1 := d];
    assert ks'[i - 1..] == [d] + ks[i..];
    ShlAdd(avbl - 1, 1, 32 - d);
  }

  /** ks is ks0 with d at the positions from lo to hi. */
  ghost predicate Overwritten(ks0: seq<nat>, ks: seq<nat>, lo: nat, hi: nat, d: nat) {
    && lo <= hi <= |ks| == |ks0|
    && (forall j :: 0 <= j < lo ==> ks[j] == ks0[j])
    && (forall j :: lo <= j < hi ==> ks[j] == d)
    && (forall j :: hi <= j < |ks| ==> ks[j] == ks0[j])
  }

  /** Writes the depth of the leaves at level dpth, from next - 1 down, until only used nodes remain available. */
  method FillLevel(a: array<SymFreq>, n: nat, dpth: nat, avbl: nat, used: nat, next: nat)
    requires next <= n <= a.Length && used <= avbl <= next && dpth <= 32
    requires Space(Ks(a, n)[next..]) + Shl(avbl, 32 - dpth) == 0x1_0000_0000
    modifies a
    ensures Overwritten(old(Ks(a, n)), Ks(a, n), next - (avbl - used), next, dpth)
    ensures Space(Ks(a, n)[next - (avbl - used)..]) + Shl(used, 32 - dpth) == 0x1_0000_0000
    ensures forall i :: 0 <= i < n ==> a[i].sym == old(a[i].sym)
  {
    hide Space, Shl;
    var i, left := next, avbl;
    while left > used
      invariant used <= left <= avbl && i == next - (avbl - left)
      invariant Overwritten(old(Ks(a, n)), Ks(a, n), i, next, dpth)
      invariant Space(Ks(a, n)[i..]) + Shl(left, 32 - dpth) == 0x1_0000_0000
      invariant forall i :: 0 <= i < n ==> a[i].sym == old(a[i].sym)
    {
      LevelSpace(Ks(a, n), i, dpth, left);
      StoreKey(a, n, i - 1, dpth);
      i := i - 1;
      left := left - 1;
    }
  }

  /** Leaves hold their depths, which fill the code space: the outcome of the three phases. */
  ghost predicate LeafDepths(ks: seq<nat>, m: Merging) {
    && Tree(m) && |ks| == |m.q|
    && Space(ks) == 0x1_0000_0000
    && (forall j :: 0 <= j < |ks| ==> ks[j] == Depth(m.p, m.q[j]) + 1)
  }

  lemma WholeSpace()
    ensures Shl(1, 32) == 0x1_0000_0000
  {
    assert Shl(1, 8) == 256;
    assert Shl(1, 16) == 65536;
    assert Shl(1, 24) == 16777216;
  }

  lemma LevelStarts(ks: seq<nat>, freq: seq<nat>, m: Merging)
    requires Finished(freq, m) && |ks| == |freq| && Descended(ks, m.p, -1)
    ensures LevelSpaced(ks, m, 0, |m.p| + 1, 1)
  {
    WholeSpace();
    hide Binary, Shl;
    assert ks[|ks|..] == [];
  }

  /** From level d to level d + 1, once the leaves of level d are written. */
  lemma LevelStep(ks: seq<nat>, ks': seq<nat>, m: Merging, d: nat, r: nat, avbl: nat, r': nat)
    requires Level(ks, m, d, r, avbl) && NextStart(m, d, r, avbl, r')
    requires Overwritten(ks, ks', r' + 2 * (r - r'), r + avbl, d)
    ensures Level(ks', m, d + 1, r', 2 * (r - r'))
  {
    hide Binary;
  }

  /** Counts the internal nodes at level dpth. */
  method ScanLevel(a: array<SymFreq>, n: nat, root: int, dpth: nat, avbl: nat, ghost m: Merging)
    returns (used: nat, root': int)
    requires 2 <= n <= a.Length && -1 <= root <= n - 2
    requires Level(Ks(a, n), m, dpth, root + 1, avbl)
    ensures -1 <= root' && used == root - root' <= avbl
    ensures NextStart(m, dpth, root + 1, avbl, root' + 1)
    ensures root >= 0 ==> used > 0
  {
    hide Level, Tree, NextStart;
    ghost var ks := Ks(a, n);
    used, root' := 0, root;
    while root' >= 0 && a[root'].key == dpth
      invariant -1 <= root' <= root && used == root - root'
      invariant forall i :: root' < i <= root ==> ks[i] == dpth
      decreases root'
    {
      assert ks[root'] == a[root'].key;
      used := used + 1;
      root' := root' - 1;
    }
    assert root' >= 0 ==> ks[root'] == a[root'].key;
    NextLevel(ks, m, dpth, root + 1, avbl, root' + 1);
    NextStartShape(m, dpth, root + 1, avbl, root' + 1);
    if root >= 0 {
      LevelProgress(ks, m, dpth, root + 1, avbl);
    }
  }

  lemma NextStartShape(m: Merging, d: nat, r: nat, avbl: nat, r': nat)
    requires NextStart(m, d, r, avbl, r')
    ensures r' <= r && r' <= |m.p| && r - r' <= avbl && r' + 2 * (r - r') <= |m.q|
  {
  }

  /** Level d is next, the space left being exactly what the avbl nodes there have. */
  ghost predicate LevelSpaced(ks: seq<nat>, m: Merging, d: nat, r: nat, avbl: nat) {
    && Level(ks, m, d, r, avbl) && d <= 25 && (avbl > 0 ==> d <= 24) && r + avbl <= |ks|
    && Space(ks[r + avbl..]) + Shl(avbl, 32 - d) == 0x1_0000_0000
  }

  /** Handles one level: counts its internal nodes and writes the depths of its leaves. */
  method SpreadLevel(a: array<SymFreq>, n: nat, root: int, dpth: nat, avbl: nat, ghost freq: seq<nat>, ghost m: Merging)
    returns (root': int, used: nat)
    requires 2 <= n <= a.Length && n == |freq| && Finished(freq, m) && Sum(freq) < 65536
    requires -1 <= root <= n - 2 && 0 < avbl
    requires LevelSpaced(Ks(a, n), m, dpth, root + 1, avbl)
    modifies a
    ensures -1 <= root' <= root && used == root - root' && (root >= 0 ==> used > 0)
    ensures LevelSpaced(Ks(a, n), m, dpth + 1, root' + 1, 2 * used)
    ensures forall i :: 0 <= i < n ==> a[i].sym == old(a[i].sym)
  {
    hide *;
    ghost var ks, r := Ks(a, n), root + 1;
    LevelSpacedParts(ks, m, dpth, r, avbl);
    used, root' := ScanLevel(a, n, root, dpth, avbl, m);
    NextStartShape(m, dpth, r, avbl, root' + 1);
    UsedDepth(ks, m, freq, dpth, r, avbl);
    FillLevel(a, n, dpth, avbl, used, root + 1 + avbl);
    LevelStep(ks, Ks(a, n), m, dpth, r, avbl, root' + 1);
    DoubleSpace(used, dpth);
    LevelSpacedFrom(Ks(a, n), m, dpth + 1, root' + 1, 2 * used, r + avbl - (avbl - used));
  }

  lemma LevelSpacedParts(ks: seq<nat>, m: Merging, d: nat, r: nat, avbl: nat)
    requires LevelSpaced(ks, m, d, r, avbl)
    ensures Level(ks, m, d, r, avbl) && d <= 25 && (avbl > 0 ==> d <= 24)
    ensures r + avbl <= |ks| && Space(ks[r + avbl..]) + Shl(avbl, 32 - d) == 0x1_0000_0000
  {
  }

  lemma LevelSpacedFrom(ks: seq<nat>, m: Merging, d: nat, r: nat, avbl: nat, next: nat)
    requires Level(ks, m, d, r, avbl) && d <= 25 && (avbl > 0 ==> d <= 24) && next == r + avbl <= |ks|
    requires Space(ks[next..]) + Shl(avbl, 32 - d) == 0x1_0000_0000
    ensures LevelSpaced(ks, m, d, r, avbl)
  {
    hide Level;
  }

  /** Phase 3: turns the internal depths into leaf depths, level by level from the root. */
  method Spread(a: array<SymFreq>, n: nat, ghost freq: seq<nat>, ghost m: Merging)
    requires 2 <= n <= a.Length && n == |freq| && Finished(freq, m) && Sum(freq) < 65536
    requires Descended(Ks(a, n), m.p, -1)
    modifies a
    ensures LeafDepths(Ks(a, n), m)
    ensures forall i :: 0 <= i < n ==> a[i].sym == old(a[i].sym)
  {
    FinishedShape(freq, m);
    LevelStarts(Ks(a, n), freq, m);
    hide *;
    var avbl: nat, used: nat, dpth: nat := 1, 0, 0;
    var root: int := n - 2;
    while avbl > 0
      invariant -1 <= root <= n - 2 && (root >= 0 ==> avbl > 0)
      invariant LevelSpaced(Ks(a, n), m, dpth, root + 1, avbl)
      invariant forall i :: 0 <= i < n ==> a[i].sym == old(a[i].sym)
      decreases if root >= 0 then root + 2 else if avbl > 0 then 1 else 0
    {
      root, used := SpreadLevel(a, n, root, dpth, avbl, freq, m);
      avbl := 2 * used;
      dpth := dpth + 1;
    }
    assert avbl == 0 && root == -1;
    SpreadEnds(Ks(a, n), m, dpth);
  }

  lemma DoubleSpace(used: nat, d: nat)
    requires d < 32
    ensures Shl(2 * used, 32 - (d + 1)) == Shl(used, 32 - d)
  {
    ShlShl(used, 1, 31 - d);
    assert Shl(used, 1) == 2 * Shl(used, 0);
  }

  lemma UsedDepth(ks: seq<nat>, m: Merging, freq: seq<nat>, d: nat, r: nat, avbl: nat)
    requires Level(ks, m, d, r, avbl) && Finished(freq, m) && Sum(freq) < 65536
    ensures 0 < r ==> d < 24
  {
    if 0 < r {
      DepthBound(freq, m, r - 1);
    }
  }

  lemma SpreadEnds(ks: seq<nat>, m: Merging, d: nat)
    requires LevelSpaced(ks, m, d, 0, 0)
    ensures LeafDepths(ks, m)
  {
    hide Binary, Space;
    ShlAdd(0, 0, 32 - d);
    assert ks[0..] == ks;
  }

  // ----- the whole algorithm -----

  /** What the lengths computed for ascending frequencies promise. */
  ghost predicate MinimumLengths(freq: seq<nat>, lens: seq<nat>) {
    && |lens| == |freq|
    && (|freq| == 1 ==> lens == [1])
    && (|freq| >= 2 ==>
          && (forall i :: 0 <= i < |lens| ==> 1 <= lens[i] <= 24)
          && (forall i, j :: 0 <= i < j < |lens| ==> lens[j] <= lens[i])
          && Space(lens) == 0x1_0000_0000
          && Optimal(freq, lens) && LightLeaves(freq, lens))
  }

  lemma DepthsAreLengths(ks: seq<nat>, freq: seq<nat>, m: Merging)
    requires LeafDepths(ks, m) && Finished(freq, m) && Best(freq, m) && Sum(freq) < 65536
    ensures MinimumLengths(freq, ks)
  {
    TreeIsOptimal(freq, m);
    assert ks == LeafDepth(m);
    forall i | 0 <= i < |ks| ensures 1 <= ks[i] <= 24 {
      DepthBound(freq, m, m.q[i]);
    }
    forall i, j | 0 <= i < j < |ks| ensures ks[j] <= ks[i] {
      DepthFalls(m.p, m.q[i], m.q[j]);
    }
    forall j | 0 <= j < |ks| ensures LightLeaf(freq[j], ks[j], Sum(freq)) {
      LeafWeight(freq, m, j);
    }
    hide Optimal, LightLeaf, Finished, Best, Sum, Space, Binary;
  }

  /** Replaces the ascending positive frequencies of a[..n] by the lengths of an optimal prefix code for them. */
  method CalculateMinimumRedundancy(a: array<SymFreq>, n: nat)
    requires n <= a.Length
    requires var freq := Ks(a, n); Sorted(freq) && Positive(freq) && Sum(freq) < 65536
    modifies a
    ensures MinimumLengths(old(Ks(a, n)), Ks(a, n))
    ensures forall i :: 0 <= i < n ==> a[i].sym == old(a[i].sym)
  {
    ghost var freq := Ks(a, n);
    if n == 0 {
      return;
    } else if n == 1 {
      StoreKey(a, n, 0, 1);
      return;
    }
    ghost var m := Merge(a, n);
    MergedTree(Ks(a, n), freq, m);
    FinishedShape(freq, m);
    hide *;
    Descend(a, n, freq, m);
    Spread(a, n, freq, m);
    DepthsAreLengths(Ks(a, n), freq, m);
  }

  lemma MergedTree(ks: seq<nat>, freq: seq<nat>, m: Merging)
    requires Built(ks, freq, m) && |m.w| == |freq| - 1
    ensures Finished(freq, m) && Best(freq, m) && |m.p| == |freq| - 2
    ensures forall i :: 0 <= i < |m.p| ==> ks[i] == m.p[i]
  {
    TopShape(ks, freq, m);
    MergingEnds(ks, freq, m);
    hide Top, Best, Finished;
  }
}
