/** The two-pass radix sort of (frequency, symbol) records that opens Huffman construction. */
module RadixSort {

  /** A record of the sort: a 16-bit key and the symbol it belongs to. */
  datatype SymFreq = SymFreq(key: nat, sym: nat)

  ghost predicate Keys16(s: seq<SymFreq>) {
    forall i :: 0 <= i < |s| ==> s[i].key < 65536
  }

  /** The byte of the key that a pass looks at. */
  function Digit(pass: nat, key: nat): nat {
    if pass == 0 then key % 256 else key / 256 % 256
  }

  /** The records of s whose key is k, in order. */
  function WithKey(s: seq<SymFreq>, k: nat): seq<SymFreq> {
    if s == [] then []
    else if s[|s| - 1].key == k then WithKey(s[..|s| - 1], k) + [s[|s| - 1]]
    else WithKey(s[..|s| - 1], k)
  }

  ghost predicate SortedByKey(s: seq<SymFreq>) {
    forall i, j :: 0 <= i < j < |s| ==> s[i].key <= s[j].key
  }

  /** r is s sorted by key, records of equal key keeping their order. */
  ghost predicate StableSortOf(r: seq<SymFreq>, s: seq<SymFreq>) {
    |r| == |s| && SortedByKey(r) && forall k: nat :: WithKey(r, k) == WithKey(s, k)
  }

  /** The records of s whose digit is b, in order. */
  function WithDigit(s: seq<SymFreq>, pass: nat, b: nat): seq<SymFreq> {
    if s == [] then []
    else if Digit(pass, s[|s| - 1].key) == b then WithDigit(s[..|s| - 1], pass, b) + [s[|s| - 1]]
    else WithDigit(s[..|s| - 1], pass, b)
  }

  /** The records whose digit is below b, bucket after bucket. */
  function Buckets(s: seq<SymFreq>, pass: nat, b: nat): seq<SymFreq> {
    if b == 0 then [] else Buckets(s, pass, b - 1) + WithDigit(s, pass, b - 1)
  }

  // ----- laws of the two filters -----

  lemma {:induction false} WithKeyAppend(s: seq<SymFreq>, t: seq<SymFreq>, k: nat)
    ensures WithKey(s + t, k) == WithKey(s, k) + WithKey(t, k)
  {
    if t == [] {
      assert s + t == s;
    } else {
      WithKeyAppend(s, t[..|t| - 1], k);
      assert (s + t)[..|s + t| - 1] == s + t[..|t| - 1];
    }
  }

  lemma {:induction false} WithDigitAppend(s: seq<SymFreq>, t: seq<SymFreq>, pass: nat, b: nat)
    ensures WithDigit(s + t, pass, b) == WithDigit(s, pass, b) + WithDigit(t, pass, b)
  {
    if t == [] {
      assert s + t == s;
    } else {
      WithDigitAppend(s, t[..|t| - 1], pass, b);
      assert (s + t)[..|s + t| - 1] == s + t[..|t| - 1];
    }
  }

  lemma OfOne(e: SymFreq, pass: nat, b: nat)
    ensures WithKey([e], b) == if e.key == b then [e] else []
    ensures WithDigit([e], pass, b) == if Digit(pass, e.key) == b then [e] else []
  {
    assert [e][..0] == [];
  }

  lemma {:induction false} WithKeyOfDigit(s: seq<SymFreq>, pass: nat, b: nat, k: nat)
    ensures WithKey(WithDigit(s, pass, b), k) == if Digit(pass, k) == b then WithKey(s, k) else []
  {
    if s != [] {
      var e := s[|s| - 1];
      WithKeyOfDigit(s[..|s| - 1], pass, b, k);
      if Digit(pass, e.key) == b {
        WithKeyAppend(WithDigit(s[..|s| - 1], pass, b), [e], k);
        OfOne(e, pass, k);
      }
    }
  }

  lemma {:induction false} WithKeyOfBuckets(s: seq<SymFreq>, pass: nat, b: nat, k: nat)
    ensures WithKey(Buckets(s, pass, b), k) == if Digit(pass, k) < b then WithKey(s, k) else []
  {
    hide Digit, WithDigit;
    if b > 0 {
      WithKeyOfBuckets(s, pass, b - 1, k);
      WithKeyOfDigit(s, pass, b - 1, k);
      WithKeyAppend(Buckets(s, pass, b - 1), WithDigit(s, pass, b - 1), k);
    }
  }

  lemma {:induction false} WithDigitMembers(s: seq<SymFreq>, pass: nat, b: nat)
    ensures forall i :: 0 <= i < |WithDigit(s, pass, b)| ==> Digit(pass, WithDigit(s, pass, b)[i].key) == b
    ensures Keys16(s) ==> Keys16(WithDigit(s, pass, b))
  {
    if s != [] {
      WithDigitMembers(s[..|s| - 1], pass, b);
    }
  }

  /** Filtering keeps an order by the low byte. */
  ghost predicate SortedByLow(s: seq<SymFreq>) {
    forall i, j :: 0 <= i < j < |s| ==> s[i].key % 256 <= s[j].key % 256
  }

  lemma {:induction false} WithDigitKeepsLow(s: seq<SymFreq>, pass: nat, b: nat, bound: nat)
    requires SortedByLow(s) && forall i :: 0 <= i < |s| ==> s[i].key % 256 <= bound
    ensures SortedByLow(WithDigit(s, pass, b))
    ensures forall i :: 0 <= i < |WithDigit(s, pass, b)| ==> WithDigit(s, pass, b)[i].key % 256 <= bound
  {
    if s != [] {
      var e := s[|s| - 1];
      WithDigitKeepsLow(s[..|s| - 1], pass, b, e.key % 256);
    }
  }

  lemma {:induction false} BucketsMembers(s: seq<SymFreq>, pass: nat, b: nat)
    requires Keys16(s)
    ensures Keys16(Buckets(s, pass, b))
    ensures forall i :: 0 <= i < |Buckets(s, pass, b)| ==> Digit(pass, Buckets(s, pass, b)[i].key) < b
  {
    if b > 0 {
      BucketsMembers(s, pass, b - 1);
      WithDigitMembers(s, pass, b - 1);
    }
  }

  lemma {:induction false} BucketsSortedLow(s: seq<SymFreq>, b: nat)
    requires Keys16(s)
    ensures SortedByLow(Buckets(s, 0, b))
  {
    if b > 0 {
      BucketsSortedLow(s, b - 1);
      BucketsMembers(s, 0, b - 1);
      WithDigitMembers(s, 0, b - 1);
    }
  }

  lemma {:induction false} BucketsSortedHigh(s: seq<SymFreq>, b: nat)
    requires Keys16(s) && SortedByLow(s)
    ensures SortedByKey(Buckets(s, 1, b))
  {
    if b > 0 {
      BucketsSortedHigh(s, b - 1);
      BucketsMembers(s, 1, b - 1);
      WithDigitMembers(s, 1, b - 1);
      WithDigitKeepsLow(s, 1, b - 1, 255);
    }
  }

  /** Bucket b follows bucket a in the output of a pass. */
  lemma {:induction false} BucketsOrder(s: seq<SymFreq>, pass: nat, a: nat, b: nat)
    requires a < b
    ensures |Buckets(s, pass, a)| + |WithDigit(s, pass, a)| <= |Buckets(s, pass, b)|
    decreases b
  {
    if a < b - 1 {
      BucketsOrder(s, pass, a, b - 1);
    }
  }

  lemma {:induction false} BucketsOfOneMore(s: seq<SymFreq>, e: SymFreq, pass: nat, b: nat)
    ensures |Buckets(s + [e], pass, b)| == |Buckets(s, pass, b)| + if Digit(pass, e.key) < b then 1 else 0
  {
    if b > 0 {
      BucketsOfOneMore(s, e, pass, b - 1);
      assert (s + [e])[..|s|] == s;
    }
  }

  lemma {:induction false} BucketsLength(s: seq<SymFreq>, pass: nat)
    ensures |Buckets(s, pass, 256)| == |s|
  {
    if s == [] {
      BucketsOfNothing(pass, 256);
    } else {
      BucketsLength(s[..|s| - 1], pass);
      BucketsOfOneMore(s[..|s| - 1], s[|s| - 1], pass, 256);
      assert s[..|s| - 1] + [s[|s| - 1]] == s;
    }
  }

  lemma {:induction false} BucketsOfNothing(pass: nat, b: nat)
    ensures Buckets([], pass, b) == []
  {
    if b > 0 {
      BucketsOfNothing(pass, b - 1);
    }
  }

  /** How many records of s have a key whose low byte is below l and whose high byte is h. */
  lemma {:induction false} WithDigitOfBuckets(s: seq<SymFreq>, h: nat, b: nat)
    ensures |WithDigit(Buckets(s, 0, b), 1, h)| == |Buckets(WithDigit(s, 1, h), 0, b)|
  {
    if b > 0 {
      WithDigitOfBuckets(s, h, b - 1);
      WithDigitAppend(Buckets(s, 0, b - 1), WithDigit(s, 0, b - 1), 1, h);
      DigitsCommute(s, b - 1, h);
    }
  }

  lemma {:induction false} DigitsCommute(s: seq<SymFreq>, l: nat, h: nat)
    ensures WithDigit(WithDigit(s, 0, l), 1, h) == WithDigit(WithDigit(s, 1, h), 0, l)
  {
    if s != [] {
      var e := s[|s| - 1];
      DigitsCommute(s[..|s| - 1], l, h);
      OfOne(e, 0, l);
      OfOne(e, 1, h);
      WithDigitAppend(WithDigit(s[..|s| - 1], 0, l), [e], 1, h);
      WithDigitAppend(WithDigit(s[..|s| - 1], 1, h), [e], 0, l);
    }
  }

  /** The low-byte pass does not change how many records have each high byte. */
  lemma HighCountsKept(s: seq<SymFreq>, h: nat)
    ensures |WithDigit(Buckets(s, 0, 256), 1, h)| == |WithDigit(s, 1, h)|
  {
    WithDigitOfBuckets(s, h, 256);
    BucketsLength(WithDigit(s, 1, h), 0);
  }

  /** Two passes sort stably by the whole key. */
  lemma TwoPassesSort(s: seq<SymFreq>)
    requires Keys16(s)
    ensures StableSortOf(Buckets(Buckets(s, 0, 256), 1, 256), s)
  {
    var p := Buckets(s, 0, 256);
    BucketsLength(s, 0);
    BucketsLength(p, 1);
    BucketsMembers(s, 0, 256);
    BucketsSortedLow(s, 256);
    BucketsSortedHigh(p, 256);
    forall k: nat ensures WithKey(Buckets(p, 1, 256), k) == WithKey(s, k) {
      WithKeyOfBuckets(p, 1, 256, k);
      WithKeyOfBuckets(s, 0, 256, k);
    }
  }

  lemma {:induction false} AllDigitsZero(s: seq<SymFreq>)
    requires Keys16(s) && |WithDigit(s, 1, 0)| == |s|
    ensures forall i :: 0 <= i < |s| ==> s[i].key < 256
  {
    if s != [] {
      WithDigitNoLonger(s[..|s| - 1], 1, 0);
      AllDigitsZero(s[..|s| - 1]);
    }
  }

  lemma {:induction false} WithDigitNoLonger(s: seq<SymFreq>, pass: nat, b: nat)
    ensures |WithDigit(s, pass, b)| <= |s|
  {
    if s != [] {
      WithDigitNoLonger(s[..|s| - 1], pass, b);
    }
  }

  /** When every key fits one byte the low-byte pass is enough. */
  lemma OnePassSorts(s: seq<SymFreq>)
    requires Keys16(s) && |WithDigit(s, 1, 0)| == |s|
    ensures StableSortOf(Buckets(s, 0, 256), s)
  {
    var p := Buckets(s, 0, 256);
    BucketsLength(s, 0);
    BucketsSortedLow(s, 256);
    HighCountsKept(s, 0);
    BucketsMembers(s, 0, 256);
    AllDigitsZero(p);
    LowIsKey(p);
    forall k: nat ensures WithKey(p, k) == WithKey(s, k) {
      WithKeyOfBuckets(s, 0, 256, k);
    }
  }

  lemma LowIsKey(p: seq<SymFreq>)
    requires SortedByLow(p) && forall i :: 0 <= i < |p| ==> p[i].key < 256
    ensures SortedByKey(p)
  {
    forall i, j | 0 <= i < j < |p| ensures p[i].key <= p[j].key {
      assert p[i].key % 256 == p[i].key && p[j].key % 256 == p[j].key;
    }
  }

  lemma {:induction false} WithKeyMultiset(s: seq<SymFreq>, e: SymFreq)
    ensures multiset(s)[e] == multiset(WithKey(s, e.key))[e]
  {
    if s != [] {
      WithKeyMultiset(s[..|s| - 1], e);
      assert s == s[..|s| - 1] + [s[|s| - 1]];
    }
  }

  /** A stable sort is a permutation. */
  lemma StableSortPermutes(r: seq<SymFreq>, s: seq<SymFreq>)
    requires StableSortOf(r, s)
    ensures multiset(r) == multiset(s)
  {
    forall e: SymFreq ensures multiset(r)[e] == multiset(s)[e] {
      WithKeyMultiset(r, e);
      WithKeyMultiset(s, e);
    }
  }

  // ----- the sort itself -----

  /** Counts both bytes of every key: hist[b] for the low byte, hist[256 + b] for the high byte. */
  method CountDigits(n: nat, syms: array<SymFreq>, hist: array<nat>)
    requires n <= syms.Length && Keys16(syms[..n]) && hist.Length == 512
    modifies hist
    ensures forall b :: 0 <= b < 256 ==> hist[b] == |WithDigit(syms[..n], 0, b)|
    ensures forall b :: 0 <= b < 256 ==> hist[256 + b] == |WithDigit(syms[..n], 1, b)|
  {
    forall b | 0 <= b < 512 {
      hist[b] := 0;
    }
    for i := 0 to n
      invariant forall b :: 0 <= b < 256 ==> hist[b] == |WithDigit(syms[..i], 0, b)|
      invariant forall b :: 0 <= b < 256 ==> hist[256 + b] == |WithDigit(syms[..i], 1, b)|
    {
      var freq := syms[i].key;
      assert syms[..i + 1][..i] == syms[..i];
      hist[freq % 256] := hist[freq % 256] + 1;
      hist[256 + freq / 256 % 256] := hist[256 + freq / 256 % 256] + 1;
    }
  }

  /** Where each bucket starts. */
  method BucketOffsets(ghost s: seq<SymFreq>, pass: nat, hist: array<nat>) returns (offsets: array<nat>)
    requires pass < 2 && hist.Length == 512
    requires forall b :: 0 <= b < 256 ==> hist[256 * pass + b] == |WithDigit(s, pass, b)|
    ensures fresh(offsets) && offsets.Length == 256
    ensures forall b :: 0 <= b < 256 ==> offsets[b] == |Buckets(s, pass, b)|
  {
    offsets := new nat[256];
    var curOfs := 0;
    for i := 0 to 256
      invariant curOfs == |Buckets(s, pass, i)|
      invariant forall b :: 0 <= b < i ==> offsets[b] == |Buckets(s, pass, b)|
    {
      offsets[i] := curOfs;
      curOfs := curOfs + hist[256 * pass + i];
    }
  }

  /** One counting pass from cur to dst. */
  method CountingPass(n: nat, pass: nat, cur: array<SymFreq>, dst: array<SymFreq>, hist: array<nat>)
    requires n <= cur.Length && n <= dst.Length && cur != dst && pass < 2 && hist.Length == 512
    requires Keys16(cur[..n])
    requires forall b :: 0 <= b < 256 ==> hist[256 * pass + b] == |WithDigit(cur[..n], pass, b)|
    modifies dst
    ensures dst[..n] == Buckets(cur[..n], pass, 256)
  {
    hide Filled, Buckets, WithDigit;
    ghost var s := cur[..n];
    var offsets := BucketOffsets(s, pass, hist);
    ScatterStart(s, pass, offsets[..], dst[..n]);
    for i := 0 to n
      invariant cur[..n] == s
      invariant Scattered(s, pass, i, offsets[..], dst[..n])
    {
      ghost var before, ofs := dst[..n], offsets[..];
      var d := Digit(pass, cur[i].key);
      SlotFree(s, pass, i, d);
      dst[offsets[d]] := cur[i];
      offsets[d] := offsets[d] + 1;
      assert offsets[..] == ofs[d := ofs[d] + 1];
      assert dst[..n] == before[ofs[d] := s[i]];
      ScatterStep(s, pass, i, ofs, before);
    }
    assert s[..n] == s;
    BucketsLength(s, pass);
    BucketsFilled(s, pass, 256, dst[..n]);
  }

  /** The state of the scatter loop after i records: where each bucket's next slot is, and what the slots hold. */
  ghost predicate Scattered(s: seq<SymFreq>, pass: nat, i: nat, offsets: seq<nat>, dst: seq<SymFreq>) {
    && i <= |s| == |dst|
    && |offsets| == 256
    && (forall b :: 0 <= b < 256 ==> offsets[b] == |Buckets(s, pass, b)| + |WithDigit(s[..i], pass, b)|)
    && (forall b :: 0 <= b < 256 ==> Filled(s, pass, i, b, dst))
  }

  lemma ScatterStart(s: seq<SymFreq>, pass: nat, offsets: seq<nat>, dst: seq<SymFreq>)
    requires |dst| == |s| && |offsets| == 256
    requires forall b :: 0 <= b < 256 ==> offsets[b] == |Buckets(s, pass, b)|
    ensures Scattered(s, pass, 0, offsets, dst)
  {
    BucketsLength(s, pass);
    forall b | 0 <= b < 256 ensures Filled(s, pass, 0, b, dst) {
      BucketsOrder(s, pass, b, 256);
    }
  }

  lemma ScatterStep(s: seq<SymFreq>, pass: nat, i: nat, offsets: seq<nat>, dst: seq<SymFreq>)
    requires pass < 2 && i < |s| && Scattered(s, pass, i, offsets, dst)
    requires offsets[Digit(pass, s[i].key)] < |s|
    ensures var d := Digit(pass, s[i].key);
      Scattered(s, pass, i + 1, offsets[d := offsets[d] + 1], dst[offsets[d] := s[i]])
  {
    var d := Digit(pass, s[i].key);
    var after := dst[offsets[d] := s[i]];
    forall b | 0 <= b < 256
      ensures Filled(s, pass, i + 1, b, after)
      ensures |WithDigit(s[..i + 1], pass, b)| == |WithDigit(s[..i], pass, b)| + if b == d then 1 else 0
    {
      FilledStep(s, pass, i, b, dst, after);
    }
  }

  /** Bucket b of dst holds those of the first k records of s that belong there. */
  ghost predicate Filled(s: seq<SymFreq>, pass: nat, k: nat, b: nat, dst: seq<SymFreq>)
    requires k <= |s|
  {
    var f, w := |Buckets(s, pass, b)|, WithDigit(s[..k], pass, b);
    f + |w| <= |dst| && dst[f..f + |w|] == w
  }

  lemma WithDigitSplit(s: seq<SymFreq>, pass: nat, i: nat, b: nat)
    requires i < |s|
    ensures WithDigit(s[..i + 1], pass, b) == WithDigit(s[..i], pass, b) + if Digit(pass, s[i].key) == b then [s[i]]
        else []
    ensures |WithDigit(s[..i + 1], pass, b)| <= |WithDigit(s, pass, b)|
  {
    WithDigitAppend(s[..i + 1], s[i + 1..], pass, b);
    assert s[..i + 1] + s[i + 1..] == s;
    assert s[..i + 1][..i] == s[..i];
  }

  /** The slot about to be written lies in the array. */
  lemma SlotFree(s: seq<SymFreq>, pass: nat, i: nat, d: nat)
    requires pass < 2 && i < |s| && d == Digit(pass, s[i].key)
    ensures |Buckets(s, pass, d)| + |WithDigit(s[..i], pass, d)| < |s|
  {
    WithDigitSplit(s, pass, i, d);
    BucketsOrder(s, pass, d, 256);
    BucketsLength(s, pass);
  }

  /** Writing record i into its slot fills that slot and disturbs no other bucket. */
  lemma FilledStep(s: seq<SymFreq>, pass: nat, i: nat, b: nat, before: seq<SymFreq>, after: seq<SymFreq>)
    requires pass < 2 && i < |s| == |before| && b < 256
    requires Filled(s, pass, i, b, before)
    requires var d := Digit(pass, s[i].key); var slot := |Buckets(s, pass, d)| + |WithDigit(s[..i], pass, d)|;
      slot < |s| && after == before[slot := s[i]]
    ensures Filled(s, pass, i + 1, b, after)
    ensures |WithDigit(s[..i + 1], pass, b)| ==
      |WithDigit(s[..i], pass, b)| + if b == Digit(pass, s[i].key) then 1 else 0
  {
    var d := Digit(pass, s[i].key);
    WithDigitSplit(s, pass, i, b);
    WithDigitSplit(s, pass, i, d);
    if b < d {
      BucketsOrder(s, pass, b, d);
    } else if d < b {
      BucketsOrder(s, pass, d, b);
    }
  }

  lemma {:induction false} BucketsFilled(s: seq<SymFreq>, pass: nat, b: nat, dst: seq<SymFreq>)
    requires b <= 256 && |Buckets(s, pass, 256)| == |dst|
    requires forall c :: 0 <= c < 256 ==> Filled(s, pass, |s|, c, dst)
    ensures |Buckets(s, pass, b)| <= |dst| && dst[..|Buckets(s, pass, b)|] == Buckets(s, pass, b)
  {
    if b > 0 {
      BucketsFilled(s, pass, b - 1, dst);
      assert Filled(s, pass, |s|, b - 1, dst);
      assert s[..|s|] == s;
      var f, g := |Buckets(s, pass, b - 1)|, |Buckets(s, pass, b)|;
      assert dst[..g] == dst[..f] + dst[f..g];
    }
  }

  /** Sorts syms0[..n] by key, using syms1 as the other buffer; returns whichever buffer holds the result. */
  method RadixSortSyms(n: nat, syms0: array<SymFreq>, syms1: array<SymFreq>) returns (r: array<SymFreq>)
    requires n <= syms0.Length && n <= syms1.Length && syms0 != syms1 && Keys16(syms0[..n])
    modifies syms0, syms1
    ensures r == syms0 || r == syms1
    ensures StableSortOf(r[..n], old(syms0[..n]))
  {
    ghost var s := syms0[..n];
    var hist := new nat[512];
    CountDigits(n, syms0, hist);
    var totalPasses := 2;
    if n == hist[256] {
      totalPasses := 1;
    }
    CountingPass(n, 0, syms0, syms1, hist);
    r := syms1;
    if totalPasses == 1 {
      assert hist[256 + 0] == |WithDigit(s, 1, 0)|;
      OnePassSorts(s);
    } else {
      BucketsMembers(s, 0, 256);
      forall b | 0 <= b < 256 ensures hist[256 * 1 + b] == |WithDigit(syms1[..n], 1, b)| {
        HighCountsKept(s, b);
        assert hist[256 + b] == |WithDigit(s, 1, b)|;
      }
      CountingPass(n, 1, syms1, syms0, hist);
      r := syms0;
      TwoPassesSort(s);
    }
  }
}
