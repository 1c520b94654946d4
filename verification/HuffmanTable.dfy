/** Building a Huffman table from symbol counts: code lengths within a limit, then canonical codes. */
module HuffmanTable {
  import opened Bits
  import opened CanonicalCode
  import opened RadixSort
  import opened LengthLimit
  import opened HuffmanMerging
  import opened HuffmanTree
  import opened MinimumRedundancy
  import opened LimitCost

  // ----- canonical codes -----

  /** The lowest bit of c, the last of the code so far, becomes the first of the reversed bits. */
  lemma ReverseStep(c: nat, l: nat, rev: nat, k: nat)
    requires 0 < l && rev < Pow2(k)
    ensures MsbBits(c, l) + NatBits(rev, k) == MsbBits(c / 2, l - 1) + NatBits(2 * rev + c % 2, k + 1)
    ensures 2 * rev + c % 2 < Pow2(k + 1)
  {
    FirstBit(rev, c % 2, k);
    assert MsbBits(c, l) == MsbBits(c / 2, l - 1) + [c % 2 == 1];
    hide MsbBits, NatBits;
    assert Pow2(k + 1) == 2 * Pow2(k);
  }

  lemma FirstBit(v: nat, b: nat, k: nat)
    requires b < 2
    ensures NatBits(2 * v + b, k + 1) == [b == 1] + NatBits(v, k)
  {
  }

  /** Reverses the n bits of a code, so that sending it lowest bit first sends the code highest bit first. */
  method ReverseCode(code: nat, n: nat) returns (rev: nat)
    ensures NatBits(rev, n) == MsbBits(code, n) && rev < Pow2(n)
  {
    rev := 0;
    var c, l := code, n;
    NoBits(code, n);
    hide *;
    while l > 0
      invariant 0 <= l <= n && rev < Pow2(n - l)
      invariant MsbBits(code, n) == MsbBits(c, l) + NatBits(rev, n - l)
    {
      ReverseStep(c, l, rev, n - l);
      rev := 2 * rev + c % 2;
      c := c / 2;
      l := l - 1;
    }
    OnlyReversed(c, rev, n);
  }

  lemma NoBits(code: nat, n: nat)
    ensures MsbBits(code, n) == MsbBits(code, n) + NatBits(0, 0) && 0 < Pow2(0)
  {
  }

  lemma OnlyReversed(c: nat, rev: nat, n: nat)
    ensures MsbBits(c, 0) + NatBits(rev, n) == NatBits(rev, n)
  {
  }

  /** codes[i] is the code of symbol i, ready to be sent lowest bit first. */
  ghost predicate CodesFor(lens: seq<nat>, codes: seq<nat>) {
    && |lens| <= |codes|
    && forall i :: 0 <= i < |lens| && lens[i] > 0 ==>
         codes[i] < Pow2(lens[i]) && NatBits(codes[i], lens[i]) == CodeBits(lens, i)
  }

  /** hist[l] symbols have length l, for every l from 1 to limit. */
  ghost predicate HistogramOf(lens: seq<nat>, hist: seq<nat>, limit: nat) {
    && limit < |hist|
    && (forall i :: 0 <= i < |lens| ==> lens[i] <= limit)
    && (forall l :: 1 <= l <= limit ==> hist[l] == Count(lens, l))
  }

  lemma CountOneMore(lens: seq<nat>, i: nat, l: nat)
    requires i < |lens|
    ensures Count(lens[..i + 1], l) == Count(lens[..i], l) + if lens[i] == l then 1 else 0
  {
    assert lens[..i + 1][..i] == lens[..i];
  }

  /** The next code of each length, once the codes of the first i symbols are given out. */
  ghost predicate NextCodes(lens: seq<nat>, limit: nat, i: nat, next: seq<nat>) {
    && limit < |next| && limit <= 15 && i <= |lens|
    && forall l :: 1 <= l <= limit ==> next[l] == NextCode(lens, l) + Count(lens[..i], l)
  }

  ghost predicate CodesUpTo(lens: seq<nat>, codes: seq<nat>, i: nat) {
    && i <= |lens| <= |codes|
    && forall k :: 0 <= k < i && lens[k] > 0 ==>
         codes[k] < Pow2(lens[k]) && NatBits(codes[k], lens[k]) == CodeBits(lens, k)
  }

  method FirstCodes(ghost lens: seq<nat>, limit: nat, numCodes: array<nat>) returns (nextCode: array<nat>)
    requires numCodes.Length == 33 && 1 <= limit <= 15 && HistogramOf(lens, numCodes[..], limit)
    ensures fresh(nextCode) && nextCode.Length == 33 && NextCodes(lens, limit, 0, nextCode[..])
  {
    hide Count;
    nextCode := new nat[33];
    nextCode[1] := 0;
    var j := 0;
    for i := 2 to limit + 1
      invariant j == NextCode(lens, i - 1)
      invariant forall l :: 1 <= l < i ==> nextCode[l] == NextCode(lens, l)
    {
      assert numCodes[i - 1] == Count(lens, i - 1);
      j := 2 * (j + numCodes[i - 1]);
      nextCode[i] := j;
    }
    CountNone(lens);
  }

  lemma CountNone(lens: seq<nat>)
    ensures forall l :: Count(lens[..0], l) == 0
  {
  }

  lemma NextCodesStep(lens: seq<nat>, limit: nat, i: nat, next: seq<nat>)
    requires NextCodes(lens, limit, i, next) && i < |lens| && lens[i] <= limit
    ensures lens[i] == 0 ==> NextCodes(lens, limit, i + 1, next)
    ensures lens[i] > 0 ==> next[lens[i]] == Code(lens, i)
    ensures lens[i] > 0 ==> NextCodes(lens, limit, i + 1, next[lens[i] := next[lens[i]] + 1])
  {
    forall l | 1 <= l <= limit
      ensures Count(lens[..i + 1], l) == Count(lens[..i], l) + if lens[i] == l then 1 else 0
    {
      CountOneMore(lens, i, l);
    }
    hide Count, NextCode;
  }

  /** Gives every used symbol its canonical code. */
  method AssignCodes(sizes: array<nat>, codes: array<nat>, tableLen: nat, limit: nat, numCodes: array<nat>)
    requires tableLen <= sizes.Length && tableLen <= codes.Length && numCodes.Length == 33 && 1 <= limit <= 15
    requires sizes != codes && codes != numCodes
    requires HistogramOf(sizes[..tableLen], numCodes[..], limit)
    modifies codes
    ensures CodesFor(sizes[..tableLen], codes[..])
  {
    ghost var lens := sizes[..tableLen];
    var nextCode := FirstCodes(lens, limit, numCodes);
    hide NextCodes, Count, NextCode, NatBits, CodeBits, Pow2;
    for i := 0 to tableLen
      invariant NextCodes(lens, limit, i, nextCode[..])
      invariant CodesUpTo(lens, codes[..], i)
    {
      NextCodesStep(lens, limit, i, nextCode[..]);
      var codeSize := sizes[i];
      assert lens[i] == codeSize;
      if codeSize != 0 {
        var code := nextCode[codeSize];
        ghost var next := nextCode[..];
        nextCode[codeSize] := code + 1;
        assert nextCode[..] == next[lens[i] := next[lens[i]] + 1];
        var revCode := ReverseCode(code, codeSize);
        codes[i] := revCode;
        CodeBitsIs(lens, i, code);
      }
    }
  }

  lemma CodeBitsIs(lens: seq<nat>, i: nat, code: nat)
    requires Used(lens, i) && code == Code(lens, i)
    ensures MsbBits(code, lens[i]) == CodeBits(lens, i)
  {
  }

  // ----- code lengths from counts -----

  /** The records of the symbols that occur, in symbol order. */
  function UsedSyms(counts: seq<nat>): (r: seq<SymFreq>)
    ensures |r| <= |counts|
    ensures forall i :: 0 <= i < |r| ==> r[i].sym < |counts| && 0 < r[i].key == counts[r[i].sym]
    ensures forall i, j :: 0 <= i < j < |r| ==> r[i].sym < r[j].sym
    ensures forall k :: 0 <= k < |counts| && counts[k] > 0 ==> SymFreq(counts[k], k) in r
  {
    if counts == [] then []
    else
      var n := |counts| - 1;
      var r := UsedSyms(counts[..n]);
      if counts[n] > 0 then r + [SymFreq(counts[n], n)] else r
  }

  lemma {:induction false} UsedSymsSum(counts: seq<nat>)
    ensures Sum(KeysOf(UsedSyms(counts))) == Sum(counts)
  {
    if counts != [] {
      var n := |counts| - 1;
      UsedSymsSum(counts[..n]);
      assert counts[..n + 1] == counts == counts[..n] + [counts[n]];
      UsedSymsNext(counts, n);
      hide *;
      SumSnoc(counts[..n], counts[n]);
      KeysNext(UsedSyms(counts[..n]), counts[n], n);
    }
  }

  lemma KeysNext(r: seq<SymFreq>, f: nat, n: nat)
    ensures Sum(KeysOf(r + if f > 0 then [SymFreq(f, n)] else [])) == Sum(KeysOf(r)) + f
  {
    hide Sum;
    if f > 0 {
      assert KeysOf(r + [SymFreq(f, n)]) == KeysOf(r) + [f];
      SumSnoc(KeysOf(r), f);
    } else {
      assert r + [] == r;
    }
  }

  lemma {:induction false} SumMember(s: seq<nat>, i: nat)
    requires i < |s|
    ensures s[i] <= Sum(s)
  {
    if i > 0 {
      SumMember(s[1..], i - 1);
    }
  }

  /** Taking one element out of a sum. */
  lemma {:induction false} SumWithout(s: seq<nat>, i: nat)
    requires i < |s|
    ensures Sum(s) == s[i] + Sum(s[..i] + s[i + 1..])
  {
    if i == 0 {
      assert s[..0] + s[1..] == s[1..];
    } else {
      SumWithout(s[1..], i - 1);
      assert (s[..i] + s[i + 1..])[1..] == s[1..][..i - 1] + s[1..][i..];
    }
  }

  lemma MultisetWithout(s: seq<nat>, t: seq<nat>) returns (i: nat)
    requires s != [] && multiset(s) == multiset(t)
    ensures i < |t| && t[i] == s[0] && multiset(s[1..]) == multiset(t[..i] + t[i + 1..])
  {
    assert s[0] in multiset(t);
    i :| 0 <= i < |t| && t[i] == s[0];
    assert t == t[..i] + [t[i]] + t[i + 1..];
    assert s == [s[0]] + s[1..];
    assert multiset(t[..i] + t[i + 1..]) == multiset(t) - multiset{t[i]};
  }

  lemma {:induction false} SumPermutes(s: seq<nat>, t: seq<nat>)
    requires multiset(s) == multiset(t)
    ensures Sum(s) == Sum(t)
  {
    if s == [] {
      assert |multiset(t)| == 0;
    } else {
      var i := MultisetWithout(s, t);
      SumPermutes(s[1..], t[..i] + t[i + 1..]);
      SumWithout(t, i);
    }
  }

  lemma {:induction false} KeysMultiset(s: seq<SymFreq>, k: nat)
    ensures multiset(KeysOf(s))[k] == |WithKey(s, k)|
  {
    if s == [] {
    } else {
      var n := |s| - 1;
      KeysMultiset(s[..n], k);
      assert KeysOf(s) == KeysOf(s[..n]) + [s[n].key];
    }
  }

  /** A stable sort of the used symbols: ascending positive keys with the same sum, each symbol once. */
  lemma SortedSyms(counts: seq<nat>, r: seq<SymFreq>)
    requires StableSortOf(r, UsedSyms(counts))
    ensures Sorted(KeysOf(r)) && Positive(KeysOf(r)) && Sum(KeysOf(r)) == Sum(counts)
    ensures Distinct(r) && SymsMatch(counts, r)
  {
    var u := UsedSyms(counts);
    forall k: nat ensures multiset(KeysOf(r))[k] == multiset(KeysOf(u))[k] {
      KeysMultiset(r, k);
      KeysMultiset(u, k);
    }
    assert multiset(KeysOf(r)) == multiset(KeysOf(u));
    SumPermutes(KeysOf(r), KeysOf(u));
    UsedSymsSum(counts);
    StableSortPermutes(r, u);
    PermutedSyms(counts, r);
  }

  ghost predicate Distinct(r: seq<SymFreq>) {
    forall i, j :: 0 <= i < j < |r| ==> r[i].sym != r[j].sym
  }

  /** r holds a record for each symbol that occurs and for no other. */
  ghost predicate SymsMatch(counts: seq<nat>, r: seq<SymFreq>) {
    && (forall i :: 0 <= i < |r| ==> r[i].sym < |counts| && 0 < r[i].key == counts[r[i].sym])
    && (forall k :: 0 <= k < |counts| && counts[k] > 0 ==> SymFreq(counts[k], k) in r)
  }

  lemma PermutedSyms(counts: seq<nat>, r: seq<SymFreq>)
    requires multiset(r) == multiset(UsedSyms(counts))
    ensures Distinct(r) && SymsMatch(counts, r)
  {
    var u := UsedSyms(counts);
    forall i | 0 <= i < |r| ensures r[i] in u {
      assert r[i] in multiset(r);
    }
    forall e | e in u ensures e in r {
      assert e in multiset(r);
    }
    forall i, j | 0 <= i < j < |r| ensures r[i].sym != r[j].sym {
      if r[i].sym == r[j].sym {
        TwiceInMultiset(r, i, j);
        OnceInUsed(counts, r[i]);
      }
    }
  }

  lemma TwiceInMultiset(r: seq<SymFreq>, i: nat, j: nat)
    requires i < j < |r| && r[i] == r[j]
    ensures multiset(r)[r[i]] >= 2
  {
    assert r == r[..i] + [r[i]] + r[i + 1..j] + [r[j]] + r[j + 1..];
  }

  lemma {:induction false} OnceInUsed(counts: seq<nat>, e: SymFreq)
    ensures multiset(UsedSyms(counts))[e] <= 1
  {
    if counts != [] {
      var n := |counts| - 1;
      var r := UsedSyms(counts[..n]);
      OnceInUsed(counts[..n], e);
      assert e in r ==> e.sym < n;
      if counts[n] > 0 {
        assert UsedSyms(counts) == r + [SymFreq(counts[n], n)];
        hide UsedSyms;
        OnceMore(r, SymFreq(counts[n], n), e);
      }
    }
  }

  lemma OnceMore(r: seq<SymFreq>, x: SymFreq, e: SymFreq)
    requires multiset(r)[e] <= 1 && (e in r ==> e.sym < x.sym)
    ensures multiset(r + [x])[e] <= 1
  {
  }

  /** Collects the symbols that occur into syms. */
  method CollectSyms(counts: array<nat>, tableLen: nat, syms: array<SymFreq>) returns (n: nat)
    requires tableLen <= counts.Length && tableLen <= syms.Length
    modifies syms
    ensures n <= tableLen && syms[..n] == UsedSyms(counts[..tableLen])
  {
    n := 0;
    for i := 0 to tableLen
      invariant n <= i && syms[..n] == UsedSyms(counts[..i])
    {
      UsedSymsNext(counts[..], i);
      hide UsedSyms;
      if counts[i] != 0 {
        ghost var before := syms[..n];
        syms[n] := SymFreq(counts[i], i);
        n := n + 1;
        assert syms[..n] == before + [SymFreq(counts[i], i)];
      }
    }
  }

  lemma UsedSymsNext(counts: seq<nat>, i: nat)
    requires i < |counts|
    ensures UsedSyms(counts[..i + 1]) == UsedSyms(counts[..i]) + if counts[i] > 0 then [SymFreq(counts[i], i)] else []
  {
    assert counts[..i + 1][..i] == counts[..i];
  }

  /** Counts how many symbols have each code length. */
  method CountLengths(a: array<SymFreq>, n: nat, numCodes: array<nat>)
    requires n <= a.Length && numCodes.Length == 33
    requires forall i :: 0 <= i < n ==> Ks(a, n)[i] <= 32
    modifies numCodes
    ensures forall l :: 0 <= l <= 32 ==> numCodes[l] == Count(Ks(a, n), l)
  {
    ghost var ks := Ks(a, n);
    forall l | 0 <= l < 33 {
      numCodes[l] := 0;
    }
    for i := 0 to n
      invariant forall l :: 0 <= l <= 32 ==> numCodes[l] == Count(ks[..i], l)
    {
      assert ks[i] == a[i].key;
      assert ks[..i + 1][..i] == ks[..i];
      numCodes[a[i].key] := numCodes[a[i].key] + 1;
    }
    assert ks[..n] == ks;
  }

  lemma {:induction false} SpaceSnoc(s: seq<nat>, l: nat)
    requires l <= 32
    ensures Space(s + [l]) == Space(s) + Shl(1, 32 - l)
  {
    if s == [] {
      assert s + [l] == [l];
      assert [l][1..] == [];
    } else {
      SpaceSnoc(s[1..], l);
      assert (s + [l])[1..] == s[1..] + [l];
    }
  }

  /** How many entries of lens equal each of 0 to 32. */
  function Histogram(lens: seq<nat>): (h: seq<nat>)
    ensures |h| == 33 && forall l :: 0 <= l <= 32 ==> h[l] == Count(lens, l)
  {
    seq(33, l requires 0 <= l < 33 => Count(lens, l))
  }

  lemma {:induction false} HistogramSpace(lens: seq<nat>)
    requires forall i :: 0 <= i < |lens| ==> 1 <= lens[i] <= 32
    ensures Total(Histogram(lens), 32, 32) == Space(lens) && Codes(Histogram(lens), 32) == |lens|
  {
    var h := Histogram(lens);
    if lens == [] {
      AllLongest(h, 32, 32);
    } else {
      var n := |lens| - 1;
      var l, g := lens[n], Histogram(lens[..n]);
      HistogramSpace(lens[..n]);
      SpaceSnoc(lens[..n], l);
      assert lens == lens[..n] + [l];
      assert h == g[l := g[l] + 1];
      hide Total, Codes, Space, Histogram, Count;
      TotalUpdate(g, l, g[l] + 1, 32, 32);
      ShlAdd(g[l], 1, 32 - l);
    }
  }

  lemma {:induction false} CountUpdate(s: seq<nat>, i: nat, v: nat, l: nat)
    requires i < |s|
    ensures Count(s[i := v], l) + (if s[i] == l then 1 else 0) == Count(s, l) + if v == l then 1 else 0
  {
    var n := |s| - 1;
    if i < n {
      CountUpdate(s[..n], i, v, l);
      assert s[i := v][..n] == s[..n][i := v];
    } else {
      assert s[i := v][..n] == s[..n];
    }
  }

  lemma {:induction false} CountZeros(s: seq<nat>, l: nat)
    requires 0 < l && forall i :: 0 <= i < |s| ==> s[i] == 0
    ensures Count(s, l) == 0
  {
    if s != [] {
      CountZeros(s[..|s| - 1], l);
    }
  }

  /** How many lengths of each kind are handed out when, of those of length i, left are still to come. */
  ghost predicate HandedCounts(c: seq<nat>, limit: nat, n: nat, lens: seq<nat>, j: nat, i: nat, left: nat) {
    && 1 <= i <= limit < |c| && Codes(c, limit) == n && left <= c[i] && j <= n
    && j + Codes(c, i) == n + left
    && (forall l :: 1 <= l < i ==> Count(lens, l) == c[l])
    && Count(lens, i) == c[i] - left
    && (forall l :: i < l ==> Count(lens, l) == 0)
  }

  /** The symbols from p[j] on have lengths of at most i, the shorter the later; the others have none. */
  ghost predicate HandedTo(p: seq<SymFreq>, lens: seq<nat>, j: nat, i: nat) {
    && j <= |p|
    && (forall k :: 0 <= k < |p| ==> p[k].sym < |lens|)
    && (forall k :: j <= k < |p| ==> 1 <= lens[p[k].sym] <= i)
    && (forall k, k' :: j <= k < k' < |p| ==> lens[p[k'].sym] <= lens[p[k].sym])
    && (forall x :: 0 <= x < |lens| && lens[x] != 0 ==> exists k :: j <= k < |p| && p[k].sym == x)
  }

  lemma {:induction false} CodesMonotone(c: seq<nat>, i: nat, j: nat)
    requires i <= j < |c|
    ensures Codes(c, i) <= Codes(c, j)
    decreases j
  {
    if i < j {
      CodesMonotone(c, i, j - 1);
    }
  }

  lemma HandOutCount(c: seq<nat>, limit: nat, n: nat, lens: seq<nat>, j: nat, i: nat, left: nat, x: nat)
    requires HandedCounts(c, limit, n, lens, j, i, left) && 0 < left && x < |lens| && lens[x] == 0
    ensures 0 < j && HandedCounts(c, limit, n, lens[x := i], j - 1, i, left - 1)
  {
    hide Codes;
    CodesMonotone(c, i, limit);
    var lens' := lens[x := i];
    CountUpdate(lens, x, i, i);
    forall l: nat | 1 <= l < i ensures Count(lens', l) == c[l] {
      CountUpdate(lens, x, i, l);
    }
    forall l: nat | i < l ensures Count(lens', l) == 0 {
      CountUpdate(lens, x, i, l);
    }
  }

  lemma HandOutTo(p: seq<SymFreq>, lens: seq<nat>, j: nat, i: nat)
    requires HandedTo(p, lens, j, i) && Distinct(p) && 0 < j && 1 <= i
    ensures lens[p[j - 1].sym] == 0
    ensures HandedTo(p, lens[p[j - 1].sym := i], j - 1, i)
  {
    var x := p[j - 1].sym;
    assert lens[x] == 0;
    var lens' := lens[x := i];
    forall y | 0 <= y < |lens'| && lens'[y] != 0
      ensures exists k :: j - 1 <= k < |p| && p[k].sym == y
    {
      if y == x {
        assert p[j - 1].sym == y;
      } else {
        var k :| j <= k < |p| && p[k].sym == y;
      }
    }
  }

  ghost predicate Handing(c: seq<nat>, limit: nat, p: seq<SymFreq>, lens: seq<nat>, j: nat, i: nat, left: nat) {
    HandedCounts(c, limit, |p|, lens, j, i, left) && HandedTo(p, lens, j, i)
  }

  lemma HandOut(c: seq<nat>, limit: nat, p: seq<SymFreq>, lens: seq<nat>, j: nat, i: nat, left: nat)
    requires Handing(c, limit, p, lens, j, i, left) && 0 < left && Distinct(p)
    ensures 0 < j <= |p| && p[j - 1].sym < |lens|
    ensures Handing(c, limit, p, lens[p[j - 1].sym := i], j - 1, i, left - 1)
  {
    HandedLeft(c, limit, |p|, lens, j, i, left);
    HandOutTo(p, lens, j, i);
    HandOutCount(c, limit, |p|, lens, j, i, left, p[j - 1].sym);
  }

  /** Gives length i to the next count symbols. */
  method HandLevel(p: array<SymFreq>, n: nat, i: nat, count: nat, sizes: array<nat>, tableLen: nat, j: nat,
                   ghost c: seq<nat>, limit: nat)
    returns (j': nat)
    requires n <= p.Length && tableLen <= sizes.Length && Distinct(p[..n])
    requires Handing(c, limit, p[..n], sizes[..tableLen], j, i, count)
    modifies sizes
    ensures Handing(c, limit, p[..n], sizes[..tableLen], j', i, 0)
  {
    hide Handing;
    j' := j;
    var l := count;
    while l > 0
      invariant 0 <= l <= count
      invariant Handing(c, limit, p[..n], sizes[..tableLen], j', i, l)
    {
      ghost var before := sizes[..tableLen];
      HandOut(c, limit, p[..n], before, j', i, l);
      j' := j' - 1;
      sizes[p[j'].sym] := i;
      assert sizes[..tableLen] == before[p[j'].sym := i];
      l := l - 1;
    }
  }

  /** Gives the lengths counted in numCodes to the symbols of p[..n], the most frequent getting the shortest. */
  method HandOutLengths(p: array<SymFreq>, n: nat, numCodes: array<nat>, limit: nat, sizes: array<nat>, tableLen: nat)
    requires n <= p.Length && numCodes.Length == 33 && 1 <= limit <= 15 && tableLen <= sizes.Length && sizes != numCodes
    requires Codes(numCodes[..], limit) == n && Distinct(p[..n])
    requires forall k :: 0 <= k < n ==> p[k].sym < tableLen
    modifies sizes
    ensures HandedTo(p[..n], sizes[..tableLen], 0, limit)
    ensures HistogramOf(sizes[..tableLen], numCodes[..], limit)
  {
    ghost var c := numCodes[..];
    forall k | 0 <= k < sizes.Length {
      sizes[k] := 0;
    }
    assert numCodes[..] == c;
    HandingStarts(c, limit, n, sizes[..tableLen], p[..n]);
    hide HandedCounts, HandedTo, Codes, Handing;
    var j := HandLevel(p, n, 1, numCodes[1], sizes, tableLen, n, c, limit);
    for i := 2 to limit + 1
      invariant numCodes[..] == c
      invariant Handing(c, limit, p[..n], sizes[..tableLen], j, i - 1, 0)
    {
      HandingNext(c, limit, sizes[..tableLen], j, i - 1, p[..n]);
      j := HandLevel(p, n, i, numCodes[i], sizes, tableLen, j, c, limit);
    }
    HandedHistogram(c, limit, sizes[..tableLen], j, p[..n]);
  }

  lemma HandedLeft(c: seq<nat>, limit: nat, n: nat, lens: seq<nat>, j: nat, i: nat, left: nat)
    requires HandedCounts(c, limit, n, lens, j, i, left) && 0 < left
    ensures 0 < j <= n
  {
    CodesMonotone(c, i, limit);
  }

  lemma HandedHistogram(c: seq<nat>, limit: nat, lens: seq<nat>, j: nat, p: seq<SymFreq>)
    requires Handing(c, limit, p, lens, j, limit, 0)
    ensures HistogramOf(lens, c, limit) && HandedTo(p, lens, 0, limit)
  {
    hide Count;
    forall x | 0 <= x < |lens| ensures lens[x] <= limit {
      if lens[x] != 0 {
        var k :| j <= k < |p| && p[k].sym == x;
        assert lens[p[k].sym] <= limit;
      }
    }
  }

  lemma HandingNext(c: seq<nat>, limit: nat, lens: seq<nat>, j: nat, i: nat, p: seq<SymFreq>)
    requires Handing(c, limit, p, lens, j, i, 0) && i < limit
    ensures Handing(c, limit, p, lens, j, i + 1, c[i + 1])
  {
    hide Count;
  }

  lemma HandingStarts(c: seq<nat>, limit: nat, n: nat, lens: seq<nat>, p: seq<SymFreq>)
    requires 1 <= limit < |c| && Codes(c, limit) == n == |p|
    requires forall k :: 0 <= k < |lens| ==> lens[k] == 0
    requires forall k :: 0 <= k < |p| ==> p[k].sym < |lens|
    ensures Handing(c, limit, p, lens, n, 1, c[1])
  {
    forall l: nat | 0 < l ensures Count(lens, l) == 0 {
      CountZeros(lens, l);
    }
    assert Codes(c, 1) == c[1];
  }

  // ----- the table -----

  /**
   Code lengths for symbol counts: a length from 1 to limit for every symbol that occurs and for no other, rarer
   symbols never having shorter codes, and a complete code unless fewer than two symbols occur.
   */
  ghost predicate LengthsFor(counts: seq<nat>, lens: seq<nat>, limit: nat) {
    && |lens| == |counts|
    && (forall i :: 0 <= i < |lens| ==> lens[i] <= limit && (lens[i] > 0 <==> counts[i] > 0))
    && (forall i, j :: 0 <= i < |lens| && 0 <= j < |lens| && counts[i] > counts[j] > 0 ==> lens[i] <= lens[j])
    && (|UsedSyms(counts)| >= 2 ==> Kraft(lens) == 32768)
    && (|UsedSyms(counts)| == 1 ==> forall i :: 0 <= i < |lens| ==> lens[i] <= 1)
    && Kraft(lens) <= 32768
  }

  lemma {:induction false} BelowIsTotal(lens: seq<nat>, c: seq<nat>, limit: nat, l: nat)
    requires HistogramOf(lens, c, limit) && l <= limit <= 15
    ensures Below(lens, l + 1) == Total(c, l, 15)
  {
    if l > 0 {
      BelowIsTotal(lens, c, limit, l - 1);
    }
  }

  lemma {:induction false} BelowFlat(lens: seq<nat>, limit: nat, l: nat)
    requires limit <= l <= 15 && forall i :: 0 <= i < |lens| ==> lens[i] <= limit
    ensures Below(lens, l + 1) == Below(lens, limit + 1)
  {
    if limit < l {
      BelowFlat(lens, limit, l - 1);
      CountAbsent(lens, l);
      ShlAdd(0, 0, 15 - l);
    }
  }

  lemma {:induction false} CountAbsent(lens: seq<nat>, l: nat)
    requires forall i :: 0 <= i < |lens| ==> lens[i] != l
    ensures Count(lens, l) == 0
  {
    if lens != [] {
      CountAbsent(lens[..|lens| - 1], l);
    }
  }

  /** A histogram's space is the Kraft total of its lengths. */
  lemma HistogramKraft(lens: seq<nat>, c: seq<nat>, limit: nat)
    requires HistogramOf(lens, c, limit) && 1 <= limit <= 15
    ensures Kraft(lens) == Shl(Total(c, limit, limit), 15 - limit)
    ensures Total(c, limit, limit) == Pow2(limit) ==> Kraft(lens) == 32768
  {
    BelowIsTotal(lens, c, limit, limit);
    BelowFlat(lens, limit, 15);
    TotalScale(c, limit, limit, 15 - limit);
    ShlShl(1, limit, 15 - limit);
    Pow2Values();
  }

  lemma {:induction false} SmallTotal(c: seq<nat>, top: nat, limit: nat)
    requires 1 <= top <= limit < |c| && (c[1] <= 1 && forall l :: 2 <= l <= limit ==> c[l] == 0)
    ensures Codes(c, top) == c[1] && Total(c, top, limit) == Shl(c[1], limit - 1)
  {
    if top > 1 {
      SmallTotal(c, top - 1, limit);
      ShlAdd(0, 0, limit - top);
    } else {
      assert Codes(c, 1) == Codes(c, 0) + c[1];
      assert Total(c, 1, limit) == Total(c, 0, limit) + Shl(c[1], limit - 1);
    }
  }

  /** Limited lengths handed out by frequency are lengths for the counts. */
  lemma HandedLengths(counts: seq<nat>, keys: seq<SymFreq>, p: seq<SymFreq>, lens: seq<nat>, limit: nat)
    requires |lens| == |counts| && |p| == |keys| && SymsMatch(counts, keys) && SortedByKey(keys)
    requires forall k :: 0 <= k < |p| ==> p[k].sym == keys[k].sym
    requires HandedTo(p, lens, 0, limit)
    ensures forall i :: 0 <= i < |lens| ==> lens[i] <= limit && (lens[i] > 0 <==> counts[i] > 0)
    ensures forall i, j :: 0 <= i < |lens| && 0 <= j < |lens| && counts[i] > counts[j] > 0 ==> lens[i] <= lens[j]
  {
    forall i | 0 <= i < |lens| ensures lens[i] <= limit && (lens[i] > 0 <==> counts[i] > 0) {
      if counts[i] > 0 {
        var k := FindSym(counts, keys, i);
        assert p[k].sym == i;
      }
    }
    forall i, j | 0 <= i < |lens| && 0 <= j < |lens| && counts[i] > counts[j] > 0 ensures lens[i] <= lens[j] {
      var k := FindSym(counts, keys, i);
      var l := FindSym(counts, keys, j);
      assert p[k].sym == i && p[l].sym == j && l < k;
    }
  }

  lemma FindSym(counts: seq<nat>, r: seq<SymFreq>, i: nat) returns (k: nat)
    requires SymsMatch(counts, r) && i < |counts| && counts[i] > 0
    ensures k < |r| && r[k].sym == i && r[k].key == counts[i]
  {
    k :| 0 <= k < |r| && r[k] == SymFreq(counts[i], i);
  }

  /** What is known of the sorted records between the steps of building a table. */
  ghost predicate SortedFor(counts: seq<nat>, keys: seq<SymFreq>) {
    && |keys| == |UsedSyms(counts)|
    && SymsMatch(counts, keys) && SortedByKey(keys) && Distinct(keys)
  }

  /** Optimal unlimited lengths: sorts the symbols that occur and counts how many get each length. */
  method SortedLengths(counts: array<nat>, tableLen: nat, numCodes: array<nat>)
    returns (p: array<SymFreq>, n: nat, ghost keys: seq<SymFreq>)
    requires tableLen <= counts.Length && tableLen <= 288 && numCodes.Length == 33 && counts != numCodes
    requires Sum(counts[..tableLen]) < 65536
    modifies numCodes
    ensures fresh(p) && n <= p.Length && n == |keys| && SortedFor(counts[..tableLen], keys)
    ensures forall k :: 0 <= k < n ==> p[k].sym == keys[k].sym
    ensures MinimumLengths(KeysOf(keys), Ks(p, n)) && Sum(KeysOf(keys)) < 65536
    ensures forall l :: 0 <= l <= 32 ==> numCodes[l] == Count(Ks(p, n), l)
  {
    hide MinimumLengths, Sum, UsedSyms, StableSortOf, Count;
    ghost var cs := counts[..tableLen];
    var syms0, syms1 := new SymFreq[288], new SymFreq[288];
    n := CollectSyms(counts, tableLen, syms0);
    UsedKeys16(cs);
    p := RadixSortSyms(n, syms0, syms1);
    keys := p[..n];
    SortedSyms(cs, keys);
    StableSortLength(keys, UsedSyms(cs));
    ghost var freq := Ks(p, n);
    KsIsKeys(p, n);
    CalculateMinimumRedundancy(p, n);
    LengthsBound(freq, Ks(p, n));
    CountLengths(p, n, numCodes);
  }

  lemma StableSortLength(r: seq<SymFreq>, s: seq<SymFreq>)
    requires StableSortOf(r, s)
    ensures |r| == |s| && SortedByKey(r)
  {
  }

  lemma KsIsKeys(p: array<SymFreq>, n: nat)
    requires n <= p.Length
    ensures Ks(p, n) == KeysOf(p[..n])
  {
  }

  /** The histogram of unlimited lengths for n symbols. */
  ghost predicate Unlimited(c: seq<nat>, n: nat, limit: nat) {
    && |c| == 33 && 1 <= limit <= 15
    && (n >= 2 ==> Codes(c, 32) == n <= Pow2(limit) && Total(c, 32, 32) == Pow2(32))
    && (n < 2 ==> Codes(c, limit) == n && Total(c, limit, limit) <= Pow2(limit))
    && (n < 2 ==> forall l :: 2 <= l <= 32 ==> c[l] == 0)
  }

  // ----- what the lengths cost -----

  /** What each symbol contributes to the weighted length. */
  function Products(counts: seq<nat>, lens: seq<nat>): (r: seq<nat>)
    requires |lens| == |counts|
    ensures |r| == |counts|
  {
    seq(|counts|, s requires 0 <= s < |counts| => counts[s] * lens[s])
  }

  /** The space of 2^15 that the codes of the symbols in use take. */
  function Spaces(counts: seq<nat>, lens: seq<nat>): (r: seq<nat>)
    requires |lens| == |counts|
    ensures |r| == |counts|
  {
    seq(|counts|, s requires 0 <= s < |counts| => if counts[s] > 0 && lens[s] <= 15 then Shl(1, 15 - lens[s]) else 0)
  }

  /** The bits of all the codes. */
  function Weight(counts: seq<nat>, lens: seq<nat>): nat
    requires |lens| == |counts|
  {
    Sum(Products(counts, lens))
  }

  /** Code lengths from 1 to 15 for which there is a prefix code of the symbols in use. */
  ghost predicate CodeFor(counts: seq<nat>, lens: seq<nat>) {
    && |lens| == |counts| && (forall s :: 0 <= s < |counts| && counts[s] > 0 ==> 1 <= lens[s] <= 15)
    && Sum(Spaces(counts, lens)) <= 32768
  }

  /** No prefix code with lengths up to 15 is much better. */
  ghost predicate NearBest(counts: seq<nat>, lens: seq<nat>) {
    && |lens| == |counts|
    && forall other: seq<nat> :: CodeFor(counts, other) ==>
         Weight(counts, lens) <= Weight(counts, other) + 374 * |counts|
  }

  /** What the records' symbols contribute. */
  function SumAt(values: seq<nat>, r: seq<SymFreq>): nat
    requires forall k :: 0 <= k < |r| ==> r[k].sym < |values|
  {
    if r == [] then 0 else values[r[0].sym] + SumAt(values, r[1..])
  }

  lemma {:induction false} SumAtSame(values: seq<nat>, values': seq<nat>, r: seq<SymFreq>)
    requires |values| == |values'| && forall k :: 0 <= k < |r| ==> r[k].sym < |values|
    requires forall k :: 0 <= k < |r| ==> values[r[k].sym] == values'[r[k].sym]
    ensures SumAt(values, r) == SumAt(values', r)
  {
    if r != [] {
      SumAtSame(values, values', r[1..]);
    }
  }

  /** Records that have each symbol of a value once give the sum of the values. */
  lemma {:induction false} SumAtIsSum(values: seq<nat>, r: seq<SymFreq>)
    requires Distinct(r) && forall k :: 0 <= k < |r| ==> r[k].sym < |values|
    requires forall s :: 0 <= s < |values| && values[s] > 0 ==> exists k :: 0 <= k < |r| && r[k].sym == s
    ensures SumAt(values, r) == Sum(values)
    decreases |r|
  {
    if r == [] {
      SumZeros(values);
    } else {
      var s0 := r[0].sym;
      var values' := values[s0 := 0];
      forall s | 0 <= s < |values'| && values'[s] > 0 ensures exists k :: 0 <= k < |r[1..]| && r[1..][k].sym == s {
        var k :| 0 <= k < |r| && r[k].sym == s;
        assert r[1..][k - 1].sym == s;
      }
      SumAtIsSum(values', r[1..]);
      SumUpdate(values, s0, 0);
      SumAtSame(values, values', r[1..]);
    }
  }

  /** The lengths of the records' symbols. */
  function LensOf(lens: seq<nat>, r: seq<SymFreq>): (l: seq<nat>)
    requires forall k :: 0 <= k < |r| ==> r[k].sym < |lens|
    ensures |l| == |r| && forall k :: 0 <= k < |r| ==> l[k] == lens[r[k].sym]
  {
    seq(|r|, k requires 0 <= k < |r| => lens[r[k].sym])
  }

  lemma {:induction false} DotIsSumAt(counts: seq<nat>, keys: seq<SymFreq>, lens: seq<nat>, k: nat)
    requires |lens| == |counts| && SymsMatch(counts, keys) && k <= |keys|
    ensures Dot(KeysOf(keys), LensOf(lens, keys), k, |keys|) == SumAt(Products(counts, lens), keys[k..])
    decreases |keys| - k
  {
    if k < |keys| {
      DotIsSumAt(counts, keys, lens, k + 1);
      assert keys[k..][1..] == keys[k + 1..];
    }
  }

  lemma WeightByRank(counts: seq<nat>, keys: seq<SymFreq>, lens: seq<nat>)
    requires |lens| == |counts| && SymsMatch(counts, keys) && Distinct(keys)
    ensures Weight(counts, lens) == Dot(KeysOf(keys), LensOf(lens, keys), 0, |keys|)
  {
    DotIsSumAt(counts, keys, lens, 0);
    assert keys[0..] == keys;
    forall s | 0 <= s < |counts| && Products(counts, lens)[s] > 0
      ensures exists k :: 0 <= k < |keys| && keys[k].sym == s
    {
      var k := FindSym(counts, keys, s);
    }
    hide Dot;
    SumAtIsSum(Products(counts, lens), keys);
  }

  lemma {:induction false} ShareIsSumAt(counts: seq<nat>, keys: seq<SymFreq>, lens: seq<nat>, k: nat)
    requires |lens| == |counts| && SymsMatch(counts, keys) && k <= |keys|
    requires forall i :: 0 <= i < |keys| ==> lens[keys[i].sym] <= 15
    ensures LengthLimit.Share(LensOf(lens, keys), k, |keys|, 15) == SumAt(Spaces(counts, lens), keys[k..])
    decreases |keys| - k
  {
    hide Shl;
    if k < |keys| {
      ShareIsSumAt(counts, keys, lens, k + 1);
      assert keys[k..][1..] == keys[k + 1..];
    }
  }

  lemma SpaceByRank(counts: seq<nat>, keys: seq<SymFreq>, lens: seq<nat>)
    requires CodeFor(counts, lens) && SymsMatch(counts, keys) && Distinct(keys)
    ensures forall i :: 0 <= i < |keys| ==> 1 <= LensOf(lens, keys)[i] <= 15
    ensures LengthLimit.Share(LensOf(lens, keys), 0, |keys|, 15) <= 32768
  {
    ShareIsSumAt(counts, keys, lens, 0);
    assert keys[0..] == keys;
    hide Shl, LengthLimit.Share;
    forall s | 0 <= s < |counts| && Spaces(counts, lens)[s] > 0
      ensures exists k :: 0 <= k < |keys| && keys[k].sym == s
    {
      var k := FindSym(counts, keys, s);
    }
    SumAtIsSum(Spaces(counts, lens), keys);
  }

  /** Which lengths are l. */
  function Indicator(lens: seq<nat>, l: nat): (r: seq<nat>)
    ensures |r| == |lens|
  {
    seq(|lens|, s requires 0 <= s < |lens| => if lens[s] == l then 1 else 0)
  }

  lemma {:induction false} IndicatorSum(lens: seq<nat>, l: nat)
    ensures Sum(Indicator(lens, l)) == Count(lens, l)
  {
    if lens != [] {
      var n := |lens| - 1;
      IndicatorSum(lens[..n], l);
      assert Indicator(lens, l) == Indicator(lens[..n], l) + [Indicator(lens, l)[n]];
      SumSnoc(Indicator(lens[..n], l), Indicator(lens, l)[n]);
    }
  }

  lemma {:induction false} CountIsSumAt(lens: seq<nat>, keys: seq<SymFreq>, l: nat)
    requires forall k :: 0 <= k < |keys| ==> keys[k].sym < |lens|
    ensures Count(LensOf(lens, keys), l) == SumAt(Indicator(lens, l), keys)
    decreases |keys|
  {
    if keys != [] {
      CountIsSumAt(lens, keys[1..], l);
      var x, rest := lens[keys[0].sym], LensOf(lens, keys[1..]);
      assert LensOf(lens, keys) == [x] + rest;
      LimitCost.CountAppend([x], rest, l);
      CountOne(x, l);
    }
  }

  lemma CountOne(v: nat, l: nat)
    ensures Count([v], l) == if v == l then 1 else 0
  {
    assert [v][..0] == [];
  }

  /** As many lengths are l by rank as by symbol. */
  lemma RankCounts(keys: seq<SymFreq>, p: seq<SymFreq>, lens: seq<nat>, limit: nat, l: nat)
    requires |p| == |keys| && Distinct(keys) && (forall k :: 0 <= k < |p| ==> p[k].sym == keys[k].sym)
    requires HandedTo(p, lens, 0, limit) && 1 <= l
    ensures forall k :: 0 <= k < |keys| ==> keys[k].sym < |lens|
    ensures Count(LensOf(lens, keys), l) == Count(lens, l)
  {
    var v := Indicator(lens, l);
    assert forall k :: 0 <= k < |keys| ==> keys[k].sym == p[k].sym < |lens|;
    forall s | 0 <= s < |v| && v[s] > 0 ensures exists k :: 0 <= k < |keys| && keys[k].sym == s {
      var k :| 0 <= k < |p| && p[k].sym == s;
      assert keys[k].sym == s;
    }
    hide Count, HandedTo, Sum;
    CountIsSumAt(lens, keys, l);
    SumAtIsSum(v, keys);
    IndicatorSum(lens, l);
  }

  /** The lengths handed out are those that were counted. */
  lemma HandedRanks(counts: seq<nat>, keys: seq<SymFreq>, p: seq<SymFreq>, lens: seq<nat>, c: seq<nat>, limit: nat)
    requires |lens| == |counts| && |p| == |keys| && SortedFor(counts, keys) && 1 <= limit <= 15
    requires forall k :: 0 <= k < |p| ==> p[k].sym == keys[k].sym
    requires HandedTo(p, lens, 0, limit) && HistogramOf(lens, c, limit) && Codes(c, limit) == |keys|
    ensures Ranked(c, limit) == LensOf(lens, keys)
  {
    var r := LensOf(lens, keys);
    assert forall k :: 0 <= k < |r| ==> r[k] == lens[p[k].sym];
    forall l | 1 <= l <= limit ensures Count(r, l) == c[l] {
      RankCounts(keys, p, lens, limit, l);
    }
    hide Count, Codes;
    RankedIs(r, c, limit);
  }

  /** Those that were counted before are the unlimited ones. */
  lemma UnlimitedRanks(freq: seq<nat>, r0: seq<nat>, c: seq<nat>)
    requires |freq| >= 2 && MinimumLengths(freq, r0) && |c| == 33 && Codes(c, 32) == |freq|
    requires forall l :: 0 <= l <= 32 ==> c[l] == Count(r0, l)
    ensures Ranked(c, 32) == r0
  {
    hide Count, Codes, Optimal, LightLeaves, Space;
    RankedIs(r0, c, 32);
  }

  /** Limited lengths are nearly the best. */
  lemma LengthsNearBest(counts: seq<nat>, keys: seq<SymFreq>, r0: seq<nat>, lens: seq<nat>)
    requires |lens| == |counts| && SortedFor(counts, keys) && |keys| >= 2
    requires MinimumLengths(KeysOf(keys), r0) && Sum(KeysOf(keys)) < 65536
    requires Limited(r0, LensOf(lens, keys), 15)
    ensures NearBest(counts, lens)
  {
    hide Weight, MinimumLengths, Limited, Sum, Dot, LengthLimit.Share;
    WeightByRank(counts, keys, lens);
    forall other: seq<nat> | CodeFor(counts, other)
      ensures Weight(counts, lens) <= Weight(counts, other) + 374 * |counts|
    {
      WeightByRank(counts, keys, other);
      SpaceByRank(counts, keys, other);
      Pow2Values();
      NearlyOptimal(KeysOf(keys), r0, LensOf(lens, keys), LensOf(other, keys));
    }
  }

  lemma {:induction false} SumMonotone(a: seq<nat>, b: seq<nat>)
    requires |a| == |b| && forall k :: 0 <= k < |a| ==> a[k] <= b[k]
    ensures Sum(a) <= Sum(b)
  {
    if a != [] {
      SumMonotone(a[1..], b[1..]);
    }
  }

  /** With fewer than two symbols a single bit is enough. */
  lemma FewNearBest(counts: seq<nat>, keys: seq<SymFreq>, lens: seq<nat>, limit: nat)
    requires SortedFor(counts, keys) && |keys| < 2 && LengthsFor(counts, lens, limit)
    ensures NearBest(counts, lens)
  {
    forall s | 0 <= s < |counts| && counts[s] > 0 ensures lens[s] <= 1 {
      var k := FindSym(counts, keys, s);
    }
    hide Sum, UsedSyms, LengthsFor;
    forall other: seq<nat> | CodeFor(counts, other)
      ensures Weight(counts, lens) <= Weight(counts, other) + 374 * |counts|
    {
      OneBitLeast(counts, lens, other);
    }
  }

  lemma OneBitLeast(counts: seq<nat>, lens: seq<nat>, other: seq<nat>)
    requires |lens| == |counts| && (forall s :: 0 <= s < |counts| && counts[s] > 0 ==> lens[s] <= 1)
    requires CodeFor(counts, other)
    ensures Weight(counts, lens) <= Weight(counts, other)
  {
    forall s | 0 <= s < |counts| ensures counts[s] * lens[s] <= counts[s] * other[s] {
      if counts[s] > 0 {
        assert lens[s] <= other[s];
        assert counts[s] * other[s] == counts[s] * lens[s] + counts[s] * (other[s] - lens[s]);
      }
    }
    hide Sum;
    SumMonotone(Products(counts, lens), Products(counts, other));
  }

  /** Limits the lengths counted in numCodes and hands them out. */
  method LimitLengths(p: array<SymFreq>, n: nat, sizes: array<nat>, tableLen: nat, limit: nat, numCodes: array<nat>,
                      ghost counts: seq<nat>, ghost keys: seq<SymFreq>, ghost r0: seq<nat>)
    requires n <= p.Length && tableLen <= sizes.Length && numCodes.Length == 33 && sizes != numCodes
    requires |counts| == tableLen && n == |keys| && SortedFor(counts, keys) && Unlimited(numCodes[..], n, limit)
    requires forall k :: 0 <= k < n ==> p[k].sym == keys[k].sym
    requires MinimumLengths(KeysOf(keys), r0) && Sum(KeysOf(keys)) < 65536
    requires forall l :: 0 <= l <= 32 ==> numCodes[l] == Count(r0, l)
    modifies sizes, numCodes
    ensures LengthsFor(counts, sizes[..tableLen], limit) && (limit == 15 ==> NearBest(counts, sizes[..tableLen]))
    ensures HistogramOf(sizes[..tableLen], numCodes[..], limit)
  {
    ghost var c := numCodes[..];
    LimitStarts(counts, keys, p[..n], r0, c, limit);
    hide *;
    EnforceMaxCodeSize(numCodes, n, limit);
    HandOutLengths(p, n, numCodes, limit, sizes, tableLen);
    LimitEnds(counts, keys, p[..n], r0, sizes[..tableLen], c, numCodes[..], limit);
  }

  lemma LimitStarts(counts: seq<nat>, keys: seq<SymFreq>, p: seq<SymFreq>, r0: seq<nat>, c: seq<nat>, limit: nat)
    requires SortedFor(counts, keys) && |p| == |keys| && Unlimited(c, |keys|, limit)
    requires forall k :: 0 <= k < |p| ==> p[k].sym == keys[k].sym
    requires MinimumLengths(KeysOf(keys), r0) && forall l :: 0 <= l <= 32 ==> c[l] == Count(r0, l)
    ensures Distinct(p) && |p| <= |counts| && forall k :: 0 <= k < |p| ==> p[k].sym < |counts|
    ensures 1 <= limit <= 15 && |keys| == |p|
    ensures |keys| >= 2 ==> Codes(c, 32) == |keys| <= Pow2(limit) && Total(c, 32, 32) == Pow2(32) && Ranked(c, 32) == r0
    ensures |keys| < 2 ==> Codes(c, limit) == |keys|
  {
    SymsDistinct(counts, keys, p);
    hide SortedFor, MinimumLengths, Codes, Total;
    if |keys| >= 2 {
      UnlimitedRanks(KeysOf(keys), r0, c);
    }
  }

  lemma LimitEnds(counts: seq<nat>, keys: seq<SymFreq>, p: seq<SymFreq>, r0: seq<nat>, lens: seq<nat>, c: seq<nat>,
                  c': seq<nat>, limit: nat)
    requires |lens| == |counts| && |p| == |keys| && SortedFor(counts, keys) && Unlimited(c, |keys|, limit)
    requires forall k :: 0 <= k < |p| ==> p[k].sym == keys[k].sym
    requires MinimumLengths(KeysOf(keys), r0) && Sum(KeysOf(keys)) < 65536
    requires HandedTo(p, lens, 0, limit) && HistogramOf(lens, c', limit) && Codes(c', limit) == |keys|
    requires |keys| >= 2 ==> Total(c', limit, limit) == Pow2(limit) && Limited(r0, Ranked(c', limit), limit)
    requires |keys| < 2 ==> c' == c
    ensures LengthsFor(counts, lens, limit) && (limit == 15 ==> NearBest(counts, lens))
  {
    UnlimitedFew(c, |keys|, limit);
    hide Total, Codes, Pow2, HandedTo, SortedFor, HistogramOf, LengthsFor, MinimumLengths, Sum, NearBest, Ranked;
    hide Limited;
    hide Unlimited;
    LimitedLengths(counts, keys, p, lens, c', limit);
    HandedRanks(counts, keys, p, lens, c', limit);
    if limit == 15 {
      NearBestEither(counts, keys, r0, lens);
    }
  }

  lemma UnlimitedFew(c: seq<nat>, n: nat, limit: nat)
    requires Unlimited(c, n, limit)
    ensures |c| == 33 && 1 <= limit <= 15
    ensures n < 2 ==> Total(c, limit, limit) <= Pow2(limit) && forall l :: 2 <= l <= limit ==> c[l] == 0
  {
    hide Total, Codes;
  }

  lemma NearBestEither(counts: seq<nat>, keys: seq<SymFreq>, r0: seq<nat>, lens: seq<nat>)
    requires SortedFor(counts, keys) && LengthsFor(counts, lens, 15)
    requires MinimumLengths(KeysOf(keys), r0) && Sum(KeysOf(keys)) < 65536
    requires |keys| >= 2 ==> Limited(r0, LensOf(lens, keys), 15)
    ensures NearBest(counts, lens)
  {
    if |keys| >= 2 {
      hide MinimumLengths, Limited, Sum, NearBest;
      LengthsNearBest(counts, keys, r0, lens);
    } else {
      hide Sum, NearBest, MinimumLengths;
      FewNearBest(counts, keys, lens, 15);
    }
  }

  /** Computes code lengths of at most limit for the counts. */
  method DynamicLengths(counts: array<nat>, sizes: array<nat>, tableLen: nat, limit: nat, numCodes: array<nat>)
    requires tableLen <= counts.Length && tableLen <= sizes.Length && tableLen <= 288 && numCodes.Length == 33
    requires counts != sizes && counts != numCodes && sizes != numCodes
    requires 1 <= limit <= 15 && tableLen <= Pow2(limit) && Sum(counts[..tableLen]) < 65536
    modifies sizes, numCodes
    ensures LengthsFor(counts[..tableLen], sizes[..tableLen], limit)
    ensures limit == 15 ==> NearBest(counts[..tableLen], sizes[..tableLen])
    ensures HistogramOf(sizes[..tableLen], numCodes[..], limit)
  {
    ghost var cs := counts[..tableLen];
    var p, n;
    ghost var keys;
    p, n, keys := SortedLengths(counts, tableLen, numCodes);
    SymsDistinct(cs, keys, keys);
    HistogramReady(KeysOf(keys), Ks(p, n), numCodes[..], limit);
    hide *;
    LimitLengths(p, n, sizes, tableLen, limit, numCodes, cs, keys, Ks(p, n));
    assert counts[..tableLen] == cs;
  }

  lemma SymsDistinct(counts: seq<nat>, keys: seq<SymFreq>, p: seq<SymFreq>)
    requires SortedFor(counts, keys) && |p| == |keys| && forall k :: 0 <= k < |p| ==> p[k].sym == keys[k].sym
    ensures Distinct(p) && |p| <= |counts| && forall k :: 0 <= k < |p| ==> p[k].sym < |counts|
  {
  }

  lemma LimitedLengths(counts: seq<nat>, keys: seq<SymFreq>, p: seq<SymFreq>, lens: seq<nat>, c: seq<nat>, limit: nat)
    requires |lens| == |counts| && |p| == |keys| && SortedFor(counts, keys) && 1 <= limit <= 15
    requires forall k :: 0 <= k < |p| ==> p[k].sym == keys[k].sym
    requires HandedTo(p, lens, 0, limit) && HistogramOf(lens, c, limit)
    requires |keys| >= 2 ==> Total(c, limit, limit) == Pow2(limit)
    requires |keys| < 2 ==> Total(c, limit, limit) <= Pow2(limit) && forall l :: 2 <= l <= limit ==> c[l] == 0
    ensures LengthsFor(counts, lens, limit)
  {
    HandedLengths(counts, keys, p, lens, limit);
    HistogramKraft(lens, c, limit);
    ShlMonotone(Total(c, limit, limit), Pow2(limit), 15 - limit);
    ShlShl(1, limit, 15 - limit);
    Pow2Values();
    if |keys| < 2 {
      forall i | 0 <= i < |lens| ensures lens[i] <= 1 {
        if lens[i] > 1 {
          CountIndex(lens, i);
        }
      }
    }
  }

  lemma UsedKeys16(counts: seq<nat>)
    requires Sum(counts) < 65536
    ensures Keys16(UsedSyms(counts))
  {
    forall i | 0 <= i < |UsedSyms(counts)| ensures UsedSyms(counts)[i].key < 65536 {
      SumMember(counts, UsedSyms(counts)[i].sym);
    }
  }

  lemma LengthsBound(freq: seq<nat>, lens: seq<nat>)
    requires MinimumLengths(freq, lens)
    ensures |lens| == |freq| && forall i :: 0 <= i < |lens| ==> 1 <= lens[i] <= 32
  {
  }

  /** The histogram meets what limiting needs; with fewer than two symbols it is already limited. */
  lemma HistogramReady(freq: seq<nat>, lens: seq<nat>, c: seq<nat>, limit: nat)
    requires MinimumLengths(freq, lens) && |c| == 33 && 1 <= limit <= 15
    requires forall l :: 0 <= l <= 32 ==> c[l] == Count(lens, l)
    ensures |freq| <= Pow2(limit) ==> Unlimited(c, |freq|, limit)
  {
    assert c == Histogram(lens);
    if |freq| >= 2 {
      HistogramSpace(lens);
      WholeSpace();
    } else {
      FewLengths(lens);
      SmallTotal(c, limit, limit);
      ShlMonotone(c[1], 1, limit - 1);
      ShlShl(1, 1, limit - 1);
      assert Shl(1, 1) == 2 * Shl(1, 0);
      ShlAdd(1, 1, limit - 1);
    }
  }

  lemma FewLengths(lens: seq<nat>)
    requires lens == [] || lens == [1]
    ensures Count(lens, 1) == |lens|
    ensures forall l :: 2 <= l ==> Count(lens, l) == 0
  {
    if lens == [1] {
      assert [1][..0] == [];
    }
  }

  /** The size counts of given code lengths. */
  method CountSizes(sizes: array<nat>, tableLen: nat, numCodes: array<nat>)
    requires tableLen <= sizes.Length && numCodes.Length == 33 && sizes != numCodes
    requires forall i :: 0 <= i < tableLen ==> sizes[i] <= 32
    modifies numCodes
    ensures forall l :: 0 <= l <= 32 ==> numCodes[l] == Count(sizes[..tableLen], l)
  {
    ghost var lens := sizes[..tableLen];
    forall l | 0 <= l < 33 {
      numCodes[l] := 0;
    }
    for i := 0 to tableLen
      invariant forall l :: 0 <= l <= 32 ==> numCodes[l] == Count(lens[..i], l)
    {
      assert lens[..i + 1][..i] == lens[..i];
      numCodes[sizes[i]] := numCodes[sizes[i]] + 1;
    }
    assert lens[..tableLen] == lens == sizes[..tableLen];
  }

  /**
   Fills in the codes of a table. A static table has its code lengths already; a dynamic one gets the best lengths
   for its symbol counts within the limit.
   */
  method OptimizeHuffmanTable(counts: array<nat>, sizes: array<nat>, codes: array<nat>, tableLen: nat, limit: nat,
                              staticTable: bool)
    requires tableLen <= counts.Length && tableLen <= sizes.Length && tableLen <= codes.Length && tableLen <= 288
    requires counts != sizes && counts != codes && sizes != codes && 1 <= limit <= 15
    requires !staticTable ==> tableLen <= Pow2(limit) && Sum(counts[..tableLen]) < 65536
    requires staticTable ==> forall i :: 0 <= i < tableLen ==> sizes[i] <= limit
    modifies sizes, codes
    ensures staticTable ==> sizes[..] == old(sizes[..])
    ensures !staticTable ==> LengthsFor(old(counts[..tableLen]), sizes[..tableLen], limit)
    ensures !staticTable && limit == 15 ==> NearBest(old(counts[..tableLen]), sizes[..tableLen])
    ensures CodesFor(sizes[..tableLen], codes[..])
  {
    hide Sum, Pow2, LengthsFor, NearBest, CodesFor, Count;
    var numCodes := new nat[33];
    if staticTable {
      CountSizes(sizes, tableLen, numCodes);
      assert HistogramOf(sizes[..tableLen], numCodes[..], limit);
    } else {
      forall i | 0 <= i < codes.Length {
        codes[i] := 0;
      }
      assert counts[..tableLen] == old(counts[..tableLen]);
      DynamicLengths(counts, sizes, tableLen, limit, numCodes);
    }
    AssignCodes(sizes, codes, tableLen, limit, numCodes);
  }
}
