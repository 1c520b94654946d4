/** Opening a block: the fixed codes, or codes built for the tokens and described in the header of a dynamic block. */
module BlockHeaders {
  import opened Bits
  import opened CanonicalCode
  import opened Deflate
  import opened DeflateEncoding
  import HuffmanMerging
  import opened HuffmanTable
  import opened CodeLengthPacking
  import opened DynamicHeader
  import opened BitWriter
  import opened TokenBuffer
  import opened BlockBody
  import opened BlockSize

  // ----- the fixed codes -----

  lemma {:induction false} CountAppend(a: seq<nat>, b: seq<nat>, l: nat)
    ensures Count(a + b, l) == Count(a, l) + Count(b, l)
  {
    if b == [] {
      assert a + b == a;
    } else {
      CountAppend(a, b[..|b| - 1], l);
      assert (a + b)[..|a + b| - 1] == a + b[..|b| - 1];
    }
  }

  lemma {:induction false} CountRepeat(v: nat, n: nat, l: nat)
    ensures Count(Repeat(v, n), l) == if v == l then n else 0
  {
    if n > 0 {
      CountRepeat(v, n - 1, l);
      assert Repeat(v, n)[..n - 1] == Repeat(v, n - 1);
    }
  }

  lemma StaticLitCount(l: nat)
    ensures Count(StaticLit(), l) == if l == 7 then 24 else if l == 8 then 152 else if l == 9 then 112 else 0
  {
    hide Count, Repeat;
    CountAppend(Repeat(8, 144) + Repeat(9, 112) + Repeat(7, 24), Repeat(8, 8), l);
    CountAppend(Repeat(8, 144) + Repeat(9, 112), Repeat(7, 24), l);
    CountAppend(Repeat(8, 144), Repeat(9, 112), l);
    CountRepeat(8, 144, l);
    CountRepeat(9, 112, l);
    CountRepeat(7, 24, l);
    CountRepeat(8, 8, l);
  }

  /** The fixed codes are complete. */
  lemma StaticComplete()
    ensures LengthsOk(StaticLit()) && Kraft(StaticLit()) == 32768
    ensures LengthsOk(StaticDist()) && Kraft(StaticDist()) == 32768
  {
    var ll, d := StaticLit(), StaticDist();
    forall l: nat ensures Count(ll, l) == if l == 7 then 24 else if l == 8 then 152 else if l == 9 then 112 else 0 {
      StaticLitCount(l);
    }
    forall l: nat ensures Count(d, l) == if l == 5 then 32 else 0 {
      CountRepeat(5, 32, l);
    }
    assert LengthsOk(ll) && LengthsOk(d);
    hide Count, StaticLit, StaticDist;
    BelowZero(ll, 1, 7);
    BelowZero(ll, 10, 16);
    BelowZero(d, 1, 5);
    BelowZero(d, 6, 16);
    StaticKraft(ll, d);
  }

  lemma StaticKraft(ll: seq<nat>, d: seq<nat>)
    requires Below(ll, 7) == Below(ll, 1) && Below(ll, 16) == Below(ll, 10)
    requires Count(ll, 7) == 24 && Count(ll, 8) == 152 && Count(ll, 9) == 112
    requires Below(d, 5) == Below(d, 1) && Below(d, 16) == Below(d, 6) && Count(d, 5) == 32
    ensures Kraft(ll) == 32768 && Kraft(d) == 32768
  {
    hide Count;
    assert Below(ll, 1) == 0 && Below(d, 1) == 0;
    assert Shl(24, 8) == 6144 by {
      FourTimes(24);
      FourTimes(384);
      ShlShl(24, 4, 4);
    }
    assert Shl(152, 7) == 19456 by {
      FourTimes(152);
      assert Shl(2432, 3) == 19456;
      ShlShl(152, 4, 3);
    }
    assert Shl(112, 6) == 7168 by {
      FourTimes(112);
      assert Shl(1792, 2) == 7168;
      ShlShl(112, 4, 2);
    }
    assert Shl(32, 10) == 32768 by {
      FourTimes(32);
      FourTimes(512);
      assert Shl(8192, 2) == 32768;
      ShlShl(32, 4, 4);
      ShlShl(32, 8, 2);
    }
    BelowStep(ll, 8, 24, 0);
    BelowStep(ll, 9, 152, 6144);
    BelowStep(ll, 10, 112, 25600);
    BelowStep(d, 6, 32, 0);
  }

  /** Writes the fixed code lengths. */
  method FillStatic(lit: array<nat>, dist: array<nat>)
    requires lit.Length == 288 && dist.Length == 288 && lit != dist
    modifies lit, dist
    ensures lit[..288] == StaticLit() && dist[..32] == StaticDist()
  {
    var i := 0;
    while i <= 143
      invariant 0 <= i <= 144 && forall k :: 0 <= k < i ==> lit[k] == 8
    {
      lit[i] := 8;
      i := i + 1;
    }
    while i <= 255
      invariant 144 <= i <= 256 && forall k :: 0 <= k < i ==> lit[k] == if k < 144 then 8 else 9
    {
      lit[i] := 9;
      i := i + 1;
    }
    while i <= 279
      invariant 256 <= i <= 280 && forall k :: 0 <= k < i ==> lit[k] == if k < 144 then 8 else if k < 256 then 9 else 7
    {
      lit[i] := 7;
      i := i + 1;
    }
    while i <= 287
      invariant 280 <= i <= 288
      invariant forall k :: 0 <= k < i ==> lit[k] == if k < 144 then 8 else if k < 256 then 9 else if k < 280 then 7
          else 8
    {
      lit[i] := 8;
      i := i + 1;
    }
    forall k | 0 <= k < 32 {
      dist[k] := 5;
    }
    StaticLitAt();
    assert dist[..32] == StaticDist();
  }

  lemma StaticLitAt()
    ensures forall k :: 0 <= k < 288 ==>
      StaticLit()[k] == if k < 144 then 8 else if k < 256 then 9 else if k < 280 then 7 else 8
  {
  }

  lemma StaticSizes(ll: seq<nat>, d: seq<nat>)
    requires ll == StaticLit() && d == StaticDist()
    ensures Feasible(ll) && Feasible(d)
    ensures |ll| == 288 && forall i :: 0 <= i < 288 ==> 1 <= ll[i] <= 9
    ensures |d| == 32 && forall i :: 0 <= i < 32 ==> d[i] == 5
  {
    StaticComplete();
    StaticLitAt();
  }

  /** The arrays are those of one compressor: all different, and of their sizes. */
  ghost predicate Tables(t: TokenBuffer, w: BitWriter, lit: HuffTable, dist: HuffTable) {
    && t.litCounts.Length == 288 && t.distCounts.Length == 288
    && lit.sizes.Length == 288 && lit.codes.Length == 288 && dist.sizes.Length == 288 && dist.codes.Length == 288
    && t.litCounts != t.distCounts
    && {t.litCounts, t.distCounts} !! lit.Arrays() !! dist.Arrays()
    && lit.sizes != lit.codes && dist.sizes != dist.codes
    && w.out !in lit.Arrays() + dist.Arrays() && w.out != t.buf && w as object != t
  }

  /** Opens a block with the fixed codes. */
  method StartStaticBlock(t: TokenBuffer, w: BitWriter, lit: HuffTable, dist: HuffTable)
    requires w.Valid() && Tables(t, w, lit, dist)
    modifies w, w.out, lit.sizes, lit.codes, dist.sizes, dist.codes
    ensures w.Valid() && w.bits == old(w.bits) + NatBits(1, 2) && w.flushed == old(w.flushed)
    ensures lit.Holds(StaticLit()) && dist.Holds(StaticDist())
  {
    FillStatic(lit.sizes, dist.sizes);
    StaticSizes(lit.sizes[..288], dist.sizes[..32]);
    hide Feasible, CodesFor, StaticLit, StaticDist, NatBits, Pow2, Held;
    OptimizeHuffmanTable(t.litCounts, lit.sizes, lit.codes, 288, 15, true);
    OptimizeHuffmanTable(t.distCounts, dist.sizes, dist.codes, 32, 15, true);
    Pow2Values();
    w.PutBits(1, 2);
  }

  // ----- leaving out unused symbols at the end -----

  /** The lengths from n on are zero. */
  ghost predicate Trimmed(lens: seq<nat>, n: nat) {
    n <= |lens| && forall k :: n <= k < |lens| ==> lens[k] == 0
  }

  lemma {:induction false} CountTrim(lens: seq<nat>, n: nat, l: nat)
    requires Trimmed(lens, n) && 0 < l
    ensures Count(lens[..n], l) == Count(lens, l)
  {
    if n < |lens| {
      var m := |lens| - 1;
      CountTrim(lens[..m], n, l);
      assert lens[..m][..n] == lens[..n];
    } else {
      assert lens[..n] == lens;
    }
  }

  lemma {:induction false} TrimSpace(lens: seq<nat>, n: nat, l: nat)
    requires Trimmed(lens, n) && 1 <= l <= 16
    ensures Below(lens[..n], l) == Below(lens, l) && NextCode(lens[..n], l) == NextCode(lens, l)
  {
    hide Count;
    if l > 1 {
      TrimSpace(lens, n, l - 1);
      CountTrim(lens, n, l - 1);
    }
  }

  lemma TrimCode(lens: seq<nat>, n: nat, s: nat)
    requires Trimmed(lens, n) && Used(lens, s) && lens[s] <= 15
    ensures s < n && Used(lens[..n], s) && CodeBits(lens[..n], s) == CodeBits(lens, s)
  {
    hide Count, NextCode, MsbBits;
    TrimSpace(lens, n, lens[s]);
    assert lens[..n][..s] == lens[..s];
  }

  /** The code stays the same. */
  lemma TrimOk(lens: seq<nat>, n: nat)
    requires Trimmed(lens, n) && Feasible(lens) && CodeOk(lens)
    ensures Feasible(lens[..n]) && CodeOk(lens[..n])
  {
    hide Below;
    TrimSpace(lens, n, 16);
  }

  lemma TrimCodes(lens: seq<nat>, n: nat, codes: seq<nat>)
    requires Trimmed(lens, n) && Feasible(lens) && CodesFor(lens, codes)
    ensures CodesFor(lens[..n], codes)
  {
    hide Kraft, CodeBits, NatBits, Pow2;
    forall i | 0 <= i < n && lens[i] > 0 ensures CodeBits(lens[..n], i) == CodeBits(lens, i) {
      TrimCode(lens, n, i);
    }
  }

  /** Lengths for counts are a code the decoder accepts. */
  lemma LengthsAreCode(counts: seq<nat>, lens: seq<nat>, limit: nat)
    requires LengthsFor(counts, lens, limit) && limit <= 15
    ensures Feasible(lens) && CodeOk(lens)
  {
    hide Kraft;
    var u := UsedSyms(counts);
    if |u| < 2 {
      forall i, j | 0 <= i < j < |lens| ensures lens[i] == 0 || lens[j] == 0 {
        if counts[i] > 0 && counts[j] > 0 {
          TwoUsed(counts, i, j);
        }
      }
    }
  }

  lemma TwoUsed(counts: seq<nat>, i: nat, j: nat)
    requires i < j < |counts| && counts[i] > 0 && counts[j] > 0
    ensures |UsedSyms(counts)| >= 2
  {
    var u := UsedSyms(counts);
    var a :| 0 <= a < |u| && u[a].sym == i;
    var b :| 0 <= b < |u| && u[b].sym == j;
  }

  /** A trimmed table: its codes, and which symbols have one. */
  ghost predicate CodesOf(counts: seq<nat>, n: nat, sizes: seq<nat>, codes: seq<nat>) {
    && n <= |sizes| && Feasible(sizes[..n]) && CodeOk(sizes[..n]) && CodesFor(sizes[..n], codes)
    && forall s :: 0 <= s < |counts| && counts[s] > 0 ==> Used(sizes[..n], s)
  }

  /** No zero at the end, unless the least number is sent. */
  ghost predicate Cut(lens: seq<nat>, least: nat) {
    |lens| >= least && (|lens| == least || lens[|lens| - 1] > 0)
  }

  lemma TrimTable(counts: seq<nat>, tableLen: nat, n: nat, top: nat, sizes: seq<nat>, codes: seq<nat>)
    requires n <= top <= tableLen <= |sizes| && |counts| == tableLen
    requires LengthsFor(counts, sizes[..tableLen], 15) && CodesFor(sizes[..tableLen], codes)
    requires forall k :: n <= k < top ==> sizes[k] == 0
    requires forall k :: top <= k < tableLen ==> counts[k] == 0
    ensures CodesOf(counts, n, sizes, codes)
  {
    var lens := sizes[..tableLen];
    assert Trimmed(lens, n);
    LengthsAreCode(counts, lens, 15);
    hide UsedSyms, Feasible, CodeOk, CodesFor;
    TrimOk(lens, n);
    TrimCodes(lens, n, codes);
    assert lens[..n] == sizes[..n];
  }

  /** The number of lengths to send: the last one of sizes[..top] that is not zero, but at least `least`. */
  method LastUsed(sizes: array<nat>, top: nat, least: nat) returns (n: nat)
    requires least <= top <= sizes.Length
    ensures least <= n <= top && (n == least || sizes[n - 1] > 0) && forall k :: n <= k < top ==> sizes[k] == 0
  {
    n := top;
    while n > least && sizes[n - 1] == 0
      invariant least <= n <= top && forall k :: n <= k < top ==> sizes[k] == 0
    {
      n := n - 1;
    }
  }

  /** Builds one code for the symbol counts. */
  method BuildTable(counts: array<nat>, table: HuffTable, tableLen: nat, top: nat, least: nat) returns (n: nat)
    requires counts.Length == 288 && table.sizes.Length == 288 && table.codes.Length == 288
    requires table.sizes != table.codes && counts !in table.Arrays()
    requires least <= top <= tableLen <= 288 && HuffmanMerging.Sum(counts[..tableLen]) < 65536
    requires forall k :: top <= k < tableLen ==> counts[k] == 0
    modifies table.sizes, table.codes
    ensures least <= n <= top && CodesOf(counts[..tableLen], n, table.sizes[..], table.codes[..])
    ensures NearBest(counts[..tableLen], table.sizes[..tableLen]) && Cut(table.sizes[..n], least)
  {
    hide LengthsFor, NearBest, CodesFor, CodesOf, HuffmanMerging.Sum, Pow2;
    Pow2Values();
    OptimizeHuffmanTable(counts, table.sizes, table.codes, tableLen, 15, false);
    n := LastUsed(table.sizes, top, least);
    TrimTable(counts[..tableLen], tableLen, n, top, table.sizes[..], table.codes[..]);
  }

  // ----- the code lengths' own code -----

  lemma {:induction false} SymSum(items: seq<Item>, counts: seq<nat>)
    requires |counts| == 19 && forall s :: 0 <= s < 19 ==> counts[s] == SymCount(items, s)
    requires forall i :: 0 <= i < |items| ==> items[i].sym <= 18
    ensures HuffmanMerging.Sum(counts) == |items|
  {
    if items == [] {
      HuffmanMerging.SumZeros(counts);
    } else {
      var n := |items| - 1;
      var x := items[n].sym;
      var before := counts[x := counts[x] - 1];
      SymSum(items[..n], before);
      HuffmanMerging.SumUpdate(before, x, counts[x]);
      assert before[x := counts[x]] == counts;
    }
  }

  lemma {:induction false} SymCountUsed(items: seq<Item>, i: nat)
    requires i < |items|
    ensures SymCount(items, items[i].sym) > 0
  {
    if i < |items| - 1 {
      SymCountUsed(items[..|items| - 1], i);
    }
  }

  /** The entries' symbols have been counted. */
  ghost predicate SymsCounted(items: seq<Item>, counts: seq<nat>) {
    |counts| == 19 && forall s :: 0 <= s < 19 ==> counts[s] == SymCount(items, s)
  }

  /** A code for the entries. */
  ghost predicate ClCode(cl: seq<nat>, items: seq<Item>) {
    && |cl| == 19 && CodeOk(cl) && Feasible(cl) && ItemsSendable(cl, items) && ClBuilt(cl, items)
    && forall s :: 0 <= s < 19 ==> cl[s] < 8
  }

  /** The code is the one that is built for the symbols of the entries. */
  ghost predicate ClBuilt(cl: seq<nat>, items: seq<Item>) {
    exists counts :: SymsCounted(items, counts) && LengthsFor(counts, cl, 7)
  }

  lemma ClCodeBuilt(items: seq<Item>, counts: seq<nat>, cl: seq<nat>)
    requires SymsCounted(items, counts) && ItemsOk([], items) && LengthsFor(counts, cl, 7)
    ensures ClCode(cl, items)
  {
    LengthsAreCode(counts, cl, 7);
    hide Kraft, UsedSyms, CodeOk, Feasible;
    forall i | 0 <= i < |items| ensures Used(cl, items[i].sym) {
      SymCountUsed(items, i);
    }
  }

  lemma EntriesFew(items: seq<Item>, counts: seq<nat>, total: nat)
    requires SymsCounted(items, counts) && ItemsOk([], items) && |UnpackAll([], items)| == total
    ensures HuffmanMerging.Sum(counts) <= total
  {
    SymSum(items, counts);
    UnpackNonEmpty(items);
  }

  /** Builds the code of the code lengths. */
  method BuildClTable(counts: array<nat>, table: HuffTable, ghost items: seq<Item>)
    requires counts.Length == 288 && table.sizes.Length == 288 && table.codes.Length == 288
    requires table.sizes != table.codes && counts !in table.Arrays()
    requires SymsCounted(items, counts[..19]) && ItemsOk([], items) && |UnpackAll([], items)| < 65536
    modifies table.sizes, table.codes
    ensures ClCode(table.sizes[..19], items) && table.Holds(table.sizes[..19])
  {
    hide SymsCounted, ItemsOk, ClCode, UnpackAll, LengthsFor, CodesFor, Feasible, HuffmanMerging.Sum, Pow2;
    ghost var cs := counts[..19];
    EntriesFew(items, cs, |UnpackAll([], items)|);
    Pow2Values();
    OptimizeHuffmanTable(counts, table.sizes, table.codes, 19, 7, false);
    ClCodeBuilt(items, cs, table.sizes[..19]);
    ClFeasible(table.sizes[..19], items);
  }

  lemma ClFeasible(cl: seq<nat>, items: seq<Item>)
    requires ClCode(cl, items)
    ensures Feasible(cl)
  {
  }

  /** Packs the code lengths of both codes and counts the symbols this needs. */
  method PackTables(lit: array<nat>, nLit: nat, dist: array<nat>, nDist: nat, counts: array<nat>, ghost ll: seq<nat>,
                    ghost d: seq<nat>)
    returns (packed: array<nat>, n: nat, ghost items: seq<Item>)
    requires nLit <= lit.Length && nDist <= dist.Length && nLit + nDist <= 320
    requires counts.Length == 288 && counts != lit && counts != dist
    requires ll == lit[..nLit] && d == dist[..nDist] && LengthsOk(ll) && LengthsOk(d)
    modifies counts
    ensures fresh(packed) && n <= packed.Length && packed[..n] == Flat(items)
    ensures SymsCounted(items, counts[..19]) && ItemsOk([], items)
    ensures UnpackAll([], items) == ll + d && items == Packed(ll + d)
  {
    var sizes := new nat[320](_ => 0);
    packed := new nat[320](_ => 0);
    forall i | 0 <= i < nLit {
      sizes[i] := lit[i];
    }
    forall i | 0 <= i < nDist {
      sizes[nLit + i] := dist[i];
    }
    ghost var all := sizes[..nLit + nDist];
    assert all == ll + d;
    PackedSizesOk(ll, d);
    assert forall i :: 0 <= i < nLit + nDist ==> sizes[i] == all[i];
    hide LengthsOk, Written, ItemsOk, UnpackAll, Packed;
    n, items := PackCodeSizes(sizes, nLit + nDist, packed, counts);
    WrittenIs(items, packed[..], n, counts[..]);
    assert counts[..][..19] == counts[..19];
    assert packed[..][..n] == packed[..n];
  }

  lemma PackedSizesOk(a: seq<nat>, b: seq<nat>)
    requires LengthsOk(a) && LengthsOk(b)
    ensures forall i :: 0 <= i < |a + b| ==> (a + b)[i] <= 15
  {
  }

  lemma WrittenIs(items: seq<Item>, packed: seq<nat>, n: nat, counts: seq<nat>)
    requires Written(items, packed, n, counts)
    ensures n <= |packed| && packed[..n] == Flat(items) && |counts| >= 19 && SymsCounted(items, counts[..19])
  {
  }

  /** How many code length code lengths are sent. */
  method CountCl(sizes: array<nat>) returns (n: nat)
    requires sizes.Length >= 19
    ensures 4 <= n <= 19 && (n == 4 || sizes[Order(n - 1)] > 0)
    ensures forall s :: 0 <= s < 19 && n <= Place(s) ==> sizes[s] == 0
  {
    n := 19;
    while n > 0 && sizes[Order(n - 1)] == 0
      invariant n <= 19 && forall i :: n <= i < 19 ==> sizes[Order(i)] == 0
    {
      n := n - 1;
    }
    OrderPlaces();
    hide Order, Place;
    forall s | 0 <= s < 19 && n <= Place(s) ensures sizes[s] == 0 {
      assert Order(Place(s)) == s;
    }
    n := if n < 4 then 4 else n;
  }

  // ----- sending the header -----

  lemma {:induction false} FlatPrefix(items: seq<Item>, k: nat)
    requires k <= |items|
    ensures Flat(items[..k]) <= Flat(items)
  {
    if k < |items| {
      var m := |items| - 1;
      FlatPrefix(items[..m], k);
      assert items[..m][..k] == items[..k];
    } else {
      assert items[..k] == items;
    }
  }

  /** Where entry k is in the packed bytes. */
  lemma FlatAt(items: seq<Item>, k: nat)
    requires k < |items|
    ensures var q := |Flat(items[..k])|;
      && q < |Flat(items)| && Flat(items)[q] == items[k].sym
      && (items[k].sym < 16 ==> |Flat(items[..k + 1])| == q + 1)
      && (items[k].sym >= 16 ==> q + 1 < |Flat(items)| && Flat(items)[q + 1] == items[k].extra
                                 && |Flat(items[..k + 1])| == q + 2)
  {
    FlatPrefix(items, k + 1);
    assert items[..k + 1][..k] == items[..k];
  }

  ghost predicate ItemsSent(cl: seq<nat>, items: seq<Item>, k: nat, q: nat, start: seq<bool>, bits: seq<bool>) {
    && ItemsOk([], items) && ItemsSendable(cl, items) && k <= |items| && q == |Flat(items[..k])|
    && ItemsSendable(cl, items[..k]) && bits == start + ItemsBits(cl, items[..k])
  }

  /** The next entry, where the packed bytes hold it. */
  ghost predicate ItemAt(item: Item, packed: seq<nat>, q: nat) {
    && q < |packed| && packed[q] == item.sym <= 18
    && (if item.sym >= 16 then q + 1 < |packed| && packed[q + 1] == item.extra < Pow2(ExtraBits(item.sym))
        else item.extra == 0)
  }

  lemma ItemsSentNext(cl: seq<nat>, items: seq<Item>, k: nat, q: nat, start: seq<bool>, bits: seq<bool>)
    requires ItemsSent(cl, items, k, q, start, bits) && k < |items|
    ensures ItemAt(items[k], Flat(items), q) && Used(cl, items[k].sym)
    ensures ItemsSent(cl, items, k + 1, q + (if items[k].sym >= 16 then 2 else 1), start, bits + ItemBits(cl, items[k]))
  {
    hide ItemBits, Flat, ItemsBits, Pow2, ItemOk;
    FlatAt(items, k);
    ItemFound(items, k, q);
    ItemsBitsSnoc(cl, items, k);
    Associate(start, ItemsBits(cl, items[..k]), ItemBits(cl, items[k]));
  }

  lemma ItemFound(items: seq<Item>, k: nat, q: nat)
    requires ItemsOk([], items) && k < |items| && q == |Flat(items[..k])|
    ensures ItemAt(items[k], Flat(items), q)
  {
    hide Flat, Pow2;
    FlatAt(items, k);
  }

  lemma ItemsBitsSnoc(cl: seq<nat>, items: seq<Item>, k: nat)
    requires ItemsSendable(cl, items) && k < |items|
    ensures ItemsSendable(cl, items[..k]) && ItemsSendable(cl, items[..k + 1])
    ensures ItemsBits(cl, items[..k + 1]) == ItemsBits(cl, items[..k]) + ItemBits(cl, items[k])
  {
    hide ItemBits;
    assert items[..k + 1][..k] == items[..k];
  }

  lemma ItemsSentStart(cl: seq<nat>, items: seq<Item>, start: seq<bool>)
    requires ItemsOk([], items) && ItemsSendable(cl, items)
    ensures ItemsSent(cl, items, 0, 0, start, start)
  {
    assert items[..0] == [];
    assert start + ItemsBits(cl, []) == start;
  }

  lemma ItemsSentEnd(cl: seq<nat>, items: seq<Item>, k: nat, q: nat, start: seq<bool>, bits: seq<bool>)
    requires ItemsSent(cl, items, k, q, start, bits)
    ensures q < |Flat(items)| <==> k < |items|
    ensures k <= |items| && ItemsSendable(cl, items)
    ensures k == |items| ==> bits == start + ItemsBits(cl, items)
  {
    if k < |items| {
      FlatAt(items, k);
    } else {
      assert items[..k] == items;
    }
  }

  lemma ItemPieces(cl: seq<nat>, item: Item, packed: seq<nat>, q: nat, b: seq<bool>)
    requires ItemAt(item, packed, q) && Used(cl, item.sym)
    ensures q < |packed| && packed[q] == item.sym <= 18
    ensures item.sym >= 16 ==> q + 1 < |packed| && packed[q + 1] < Pow2(ExtraBits(item.sym)) && ExtraBits(item.sym) <= 7
                               && b + CodeBits(cl, item.sym) + NatBits(packed[q + 1], ExtraBits(item.sym))
                                   == b + ItemBits(cl, item)
    ensures item.sym < 16 ==> b + CodeBits(cl, item.sym) == b + ItemBits(cl, item)
  {
    hide CodeBits;
    if item.sym < 16 {
      assert NatBits(item.extra, 0) == [];
    }
  }

  /** Sends one entry. */
  method PutItem(w: BitWriter, table: HuffTable, packed: array<nat>, n: nat, q: nat, ghost cl: seq<nat>,
                 ghost item: Item)
    returns (q': nat)
    requires w.Valid() && table.Holds(cl) && n <= packed.Length && ItemAt(item, packed[..n], q) && Used(cl, item.sym)
    requires w.out !in table.Arrays() && w.out as object != packed
    modifies w, w.out
    ensures w.Valid() && w.bits == old(w.bits) + ItemBits(cl, item) && w.flushed == old(w.flushed) && table.Holds(cl)
    ensures q' == q + if item.sym >= 16 then 2 else 1
  {
    hide *;
    ItemPieces(cl, item, packed[..n], q, w.bits);
    var code := packed[q];
    q' := q + 1;
    table.PutSymbol(w, code, cl);
    if code >= 16 {
      assert packed[..n][q + 1] == packed[q + 1];
      w.PutBits(packed[q'], ExtraBits(code));
      q' := q' + 1;
    }
  }

  /** Sends all entries. */
  method PutItems(w: BitWriter, table: HuffTable, packed: array<nat>, n: nat, ghost cl: seq<nat>,
                  ghost items: seq<Item>)
    requires w.Valid() && table.Holds(cl) && n <= packed.Length && packed[..n] == Flat(items)
    requires ItemsOk([], items) && ItemsSendable(cl, items)
    requires w.out !in table.Arrays() && w.out as object != packed
    modifies w, w.out
    ensures w.Valid() && w.bits == old(w.bits) + ItemsBits(cl, items) && w.flushed == old(w.flushed)
  {
    hide *;
    ghost var start := w.bits;
    ghost var k: nat := 0;
    var q: nat := 0;
    ItemsSentStart(cl, items, start);
    ItemsSentEnd(cl, items, 0, 0, start, start);
    while q < n
      invariant w.Valid() && w.flushed == old(w.flushed) && table.Holds(cl) && k <= |items|
      invariant n <= packed.Length && packed[..n] == Flat(items)
      invariant ItemsSent(cl, items, k, q, start, w.bits)
      decreases |items| - k
    {
      ItemsSentEnd(cl, items, k, q, start, w.bits);
      assert |packed[..n]| == n;
      ItemsSentNext(cl, items, k, q, start, w.bits);
      q := PutItem(w, table, packed, n, q, cl, items[k]);
      k := k + 1;
      ItemsSentEnd(cl, items, k, q, start, w.bits);
    }
    assert |packed[..n]| == n;
    ItemsSentEnd(cl, items, k, q, start, w.bits);
  }

  /** Sends the three counts and the code length code lengths. */
  method PutCounts(w: BitWriter, sizes: array<nat>, nLit: nat, nDist: nat, nCl: nat)
    requires w.Valid() && 257 <= nLit <= 288 && 1 <= nDist <= 32 && 4 <= nCl <= 19 && sizes.Length >= 19
    requires forall s :: 0 <= s < 19 ==> sizes[s] < 8
    requires w.out as object != sizes
    modifies w, w.out
    ensures w.Valid() && w.flushed == old(w.flushed)
    ensures w.bits == old(w.bits) + CountBits(nLit, nDist, nCl) + ClBits(sizes[..19], nCl)
  {
    hide Order, Held, NatBits, Pow2;
    Pow2Values();
    ghost var start, cl := w.bits, sizes[..19];
    w.PutBits(nLit - 257, 5);
    w.PutBits(nDist - 1, 5);
    w.PutBits(nCl - 4, 4);
    ghost var counts := w.bits;
    CountsSent(start, nLit, nDist, nCl);
    ClSentStart(cl, counts);
    for i := 0 to nCl
      invariant w.Valid() && w.flushed == old(w.flushed) && sizes[..19] == cl
      invariant w.bits == counts + ClBits(cl, i)
    {
      assert sizes[Order(i)] == cl[Order(i)];
      w.PutBits(sizes[Order(i)], 3);
      Associate(counts, ClBits(cl, i), NatBits(cl[Order(i)], 3));
    }
  }

  lemma CountsSent(start: seq<bool>, nLit: nat, nDist: nat, nCl: nat)
    requires 257 <= nLit && 1 <= nDist && 4 <= nCl
    ensures start + NatBits(nLit - 257, 5) + NatBits(nDist - 1, 5) + NatBits(nCl - 4, 4)
        == start + CountBits(nLit, nDist, nCl)
  {
    hide NatBits;
  }

  lemma ClSentStart(cl: seq<nat>, counts: seq<bool>)
    requires |cl| == 19
    ensures counts + ClBits(cl, 0) == counts
  {
  }

  // ----- a dynamic block -----

  /** What opens a block with codes built for the tokens. */
  ghost predicate DynamicOpening(ts: seq<Token>, ll: seq<nat>, d: seq<nat>, h: seq<bool>) {
    && Feasible(ll) && Feasible(d) && Used(ll, 256) && AllSendable(ll, d, ts)
    && OpensWith(ll, d, h)
  }

  /** All three lists of lengths are cut where only zeros follow, and the two are packed run by run. */
  ghost predicate HeaderShort(ll: seq<nat>, d: seq<nat>, nCl: nat, cl: seq<nat>, items: seq<Item>) {
    && Cut(ll, 257) && Cut(d, 1) && items == Packed(ll + d) && ClBuilt(cl, items)
    && |cl| == 19 && 4 <= nCl <= 19 && (nCl == 4 || cl[Order(nCl - 1)] > 0)
  }

  /** h is a block type and header that give the codes ll and d. */
  ghost predicate OpensWith(ll: seq<nat>, d: seq<nat>, h: seq<bool>) {
    exists nCl, cl, items :: HeaderOk(ll, d, nCl, cl, items) && HeaderShort(ll, d, nCl, cl, items)
        && h == NatBits(2, 2) + HeaderBits(|ll|, |d|, nCl, cl, items)
  }

  /** The counters with the end-of-block symbol. */
  lemma CountsReady(ts: seq<Token>, lit: seq<nat>, dist: seq<nat>, lit': seq<nat>)
    requires Counted(ts, lit, dist) && lit' == lit[256 := 1] && 9 * |ts| <= 8 * 65536
    ensures HuffmanMerging.Sum(lit'[..288]) < 65536 && HuffmanMerging.Sum(dist[..32]) < 65536
    ensures forall k :: 286 <= k < 288 ==> lit'[k] == 0
    ensures forall k :: 30 <= k < 288 ==> dist[k] == 0
  {
    hide LitCount, DistCount;
    forall k | 0 <= k < 288
      ensures k == 256 || 286 <= k ==> lit[k] == 0
      ensures 30 <= k ==> dist[k] == 0
    {
      CountsAbsent(ts, k);
    }
    LitSum(ts, lit);
    HuffmanMerging.SumUpdate(lit, 256, 1);
    assert lit'[..288] == lit';
    DistSum(ts, dist[..32]);
  }

  lemma {:induction false} LitSum(ts: seq<Token>, lit: seq<nat>)
    requires AllPackable(ts) && |lit| == 288 && forall s :: 0 <= s < 288 ==> lit[s] == LitCount(ts, s)
    ensures HuffmanMerging.Sum(lit) == |ts|
  {
    hide LitSym;
    if ts == [] {
      HuffmanMerging.SumZeros(lit);
    } else {
      var n := |ts| - 1;
      var x := LitSym(ts[n]);
      LitSymSmall(ts[n]);
      var before := lit[x := lit[x] - 1];
      LitSum(ts[..n], before);
      HuffmanMerging.SumUpdate(before, x, lit[x]);
      assert before[x := lit[x]] == lit;
    }
  }

  lemma {:induction false} DistSum(ts: seq<Token>, dist: seq<nat>)
    requires AllPackable(ts) && |dist| == 32 && forall s :: 0 <= s < 32 ==> dist[s] == DistCount(ts, s)
    ensures HuffmanMerging.Sum(dist) <= |ts|
  {
    hide DistSym;
    if ts == [] {
      HuffmanMerging.SumZeros(dist);
    } else {
      var n := |ts| - 1;
      var t := ts[n];
      LitSymSmall(t);
      if t.Match? {
        var x := DistSym(t.dist - 1);
        var before := dist[x := dist[x] - 1];
        DistSum(ts[..n], before);
        HuffmanMerging.SumUpdate(before, x, dist[x]);
        assert before[x := dist[x]] == dist;
      } else {
        DistSum(ts[..n], dist);
      }
    }
  }

  /** Every symbol to be coded has a code. */
  lemma AllHaveCodes(ts: seq<Token>, lit: seq<nat>, dist: seq<nat>, lit': seq<nat>, ll: seq<nat>, d: seq<nat>)
    requires Counted(ts, lit, dist) && lit' == lit[256 := 1]
    requires forall s :: 0 <= s < 288 && lit'[s] > 0 ==> Used(ll, s)
    requires forall s :: 0 <= s < 32 && dist[s] > 0 ==> Used(d, s)
    ensures Used(ll, 256) && AllSendable(ll, d, ts)
  {
    hide LenSym, DistSym, LitCount, DistCount;
    forall i | 0 <= i < |ts| ensures Sendable(ll, d, ts[i]) {
      LitCountUsed(ts, i);
      LitSymSmall(ts[i]);
    }
  }

  /** The tables' arrays and those for the code length code are all different. */
  ghost predicate ClTables(t: TokenBuffer, w: BitWriter, lit: HuffTable, dist: HuffTable, cl: HuffTable,
                           clCounts: array<nat>)
  {
    && Tables(t, w, lit, dist)
    && clCounts.Length == 288 && cl.sizes.Length == 288 && cl.codes.Length == 288 && cl.sizes != cl.codes
    && {t.litCounts, t.distCounts} !! lit.Arrays() !! dist.Arrays() !! cl.Arrays() !! {clCounts}
    && w.out !in cl.Arrays() && w.out as object != clCounts
  }

  /** Everything the header needs is as it should be. */
  lemma HeaderReady(ll: seq<nat>, d: seq<nat>, nCl: nat, cl: seq<nat>, items: seq<Item>)
    requires 257 <= |ll| <= 286 && 1 <= |d| <= 30 && 4 <= nCl <= 19 && CodeOk(ll) && CodeOk(d) && ClCode(cl, items)
    requires forall s :: 0 <= s < 19 && nCl <= Place(s) ==> cl[s] == 0
    requires ItemsOk([], items) && UnpackAll([], items) == ll + d
    ensures HeaderOk(ll, d, nCl, cl, items)
  {
    hide CodeOk, Feasible, ItemsSendable, ItemsOk, UnpackAll, Place;
  }

  lemma HeaderCut(ll: seq<nat>, d: seq<nat>, nCl: nat, cl: seq<nat>, items: seq<Item>)
    requires Cut(ll, 257) && Cut(d, 1) && items == Packed(ll + d) && ClCode(cl, items) && 4 <= nCl <= 19
    requires nCl == 4 || cl[Order(nCl - 1)] > 0
    ensures HeaderShort(ll, d, nCl, cl, items)
  {
    hide Packed, ClBuilt, Cut, Order;
  }

  lemma CodesOfUse(counts: seq<nat>, n: nat, sizes: seq<nat>, codes: seq<nat>)
    requires CodesOf(counts, n, sizes, codes)
    ensures n <= |sizes| && Feasible(sizes[..n]) && LengthsOk(sizes[..n]) && CodeOk(sizes[..n])
    ensures CodesFor(sizes[..n], codes)
    ensures forall s :: 0 <= s < |counts| && counts[s] > 0 ==> Used(sizes[..n], s)
  {
    hide Kraft;
  }

  /** Builds the codes for the tokens' symbols. */
  method BuildCodes(t: TokenBuffer, lit: HuffTable, dist: HuffTable) returns (nLit: nat, nDist: nat)
    requires t.litCounts.Length == 288 && t.distCounts.Length == 288 && t.litCounts != t.distCounts
    requires lit.sizes.Length == 288 && lit.codes.Length == 288 && dist.sizes.Length == 288 && dist.codes.Length == 288
    requires {t.litCounts, t.distCounts} !! lit.Arrays() !! dist.Arrays() && lit.sizes != lit.codes
    requires dist.sizes != dist.codes
    requires Counted(t.tokens, t.litCounts[..], t.distCounts[..]) && 9 * |t.tokens| <= 8 * BUF_SIZE
    modifies t.litCounts, lit.sizes, lit.codes, dist.sizes, dist.codes
    ensures 257 <= nLit <= 286 && 1 <= nDist <= 30
    ensures CodesOf(t.litCounts[..288], nLit, lit.sizes[..], lit.codes[..])
    ensures CodesOf(t.distCounts[..32], nDist, dist.sizes[..], dist.codes[..])
    ensures NearBest(t.litCounts[..288], lit.sizes[..288]) && NearBest(t.distCounts[..32], dist.sizes[..32])
    ensures t.litCounts[..288] == old(t.litCounts[..])[256 := 1]
    ensures Cut(lit.sizes[..nLit], 257) && Cut(dist.sizes[..nDist], 1)
  {
    ghost var lits := t.litCounts[..];
    t.litCounts[256] := 1;
    assert t.litCounts[..] == lits[256 := 1];
    CountsReady(t.tokens, lits, t.distCounts[..], t.litCounts[..]);
    assert t.litCounts[..][..288] == t.litCounts[..288] && t.distCounts[..][..32] == t.distCounts[..32];
    assert forall k :: 286 <= k < 288 ==> t.litCounts[k] == t.litCounts[..][k];
    assert forall k :: 30 <= k < 288 ==> t.distCounts[k] == t.distCounts[..][k];
    hide *;
    nLit := BuildTable(t.litCounts, lit, 288, 286, 257);
    nDist := BuildTable(t.distCounts, dist, 32, 30, 1);
  }

  /** The two lists of lengths, as they are sent. */
  ghost predicate ListsReady(ll: seq<nat>, d: seq<nat>) {
    && 257 <= |ll| <= 286 && 1 <= |d| <= 30 && CodeOk(ll) && CodeOk(d) && LengthsOk(ll) && LengthsOk(d)
    && Cut(ll, 257) && Cut(d, 1)
  }

  lemma ListsParts(ll: seq<nat>, d: seq<nat>)
    requires ListsReady(ll, d)
    ensures 257 <= |ll| <= 286 && 1 <= |d| <= 30 && CodeOk(ll) && CodeOk(d) && LengthsOk(ll) && LengthsOk(d)
    ensures Cut(ll, 257) && Cut(d, 1)
  {
  }

  /** Sends the type and the header, once the code for the lengths is built and the lengths are packed. */
  method PutHeader(w: BitWriter, cl: HuffTable, packed: array<nat>, n: nat, nLit: nat, nDist: nat,
                   ghost items: seq<Item>, ghost ll: seq<nat>, ghost d: seq<nat>)
    returns (ghost h: seq<bool>)
    requires w.Valid() && nLit == |ll| && nDist == |d| && ListsReady(ll, d)
    requires cl.sizes.Length == 288 && cl.Holds(cl.sizes[..19]) && ClCode(cl.sizes[..19], items)
    requires n <= packed.Length && packed[..n] == Flat(items) && ItemsOk([], items) && UnpackAll([], items) == ll + d
    requires items == Packed(ll + d)
    requires w.out !in cl.Arrays() && w.out as object !in {cl.sizes as object, packed}
    modifies w, w.out
    ensures w.Valid() && w.bits == old(w.bits) + h && w.flushed == old(w.flushed) && OpensWith(ll, d, h)
  {
    hide *;
    ghost var start, cls := w.bits, cl.sizes[..19];
    ListsParts(ll, d);
    ClCodeUse(cls, items);
    TwoFits();
    w.PutBits(2, 2);
    var nCl := CountCl(cl.sizes);
    HeaderReady(ll, d, nCl, cls, items);
    HeaderCut(ll, d, nCl, cls, items);
    PutCounts(w, cl.sizes, nLit, nDist, nCl);
    PutItems(w, cl, packed, n, cls, items);
    h := NatBits(2, 2) + HeaderBits(nLit, nDist, nCl, cls, items);
    HeaderSent(start, nLit, nDist, nCl, cls, items);
    OpensIntro(ll, d, nCl, cls, items);
  }

  /** Sends a dynamic block's type and header for the codes that have been built. */
  method SendHeader(w: BitWriter, lit: HuffTable, nLit: nat, dist: HuffTable, nDist: nat, cl: HuffTable,
                    clCounts: array<nat>, ghost ll: seq<nat>, ghost d: seq<nat>)
    returns (ghost h: seq<bool>)
    requires w.Valid() && nLit <= lit.sizes.Length && nDist <= dist.sizes.Length
    requires ll == lit.sizes[..nLit] && d == dist.sizes[..nDist] && ListsReady(ll, d)
    requires clCounts.Length == 288 && cl.sizes.Length == 288 && cl.codes.Length == 288 && cl.sizes != cl.codes
    requires {lit.sizes, dist.sizes} !! cl.Arrays() !! {clCounts}
    requires w.out !in {lit.sizes as object, dist.sizes, clCounts} + cl.Arrays()
    modifies w, w.out, cl.sizes, cl.codes, clCounts
    ensures w.Valid() && w.bits == old(w.bits) + h && w.flushed == old(w.flushed)
    ensures OpensWith(ll, d, h)
  {
    assert cl.Arrays() == {cl.sizes, cl.codes};
    hide *;
    ListsParts(ll, d);
    var packed, n;
    ghost var items;
    packed, n, items := PackTables(lit.sizes, nLit, dist.sizes, nDist, clCounts, ll, d);
    BuildClTable(clCounts, cl, items);
    h := PutHeader(w, cl, packed, n, nLit, nDist, items, ll, d);
  }

  lemma TwoFits()
    ensures 1 < Pow2(2) && 2 < Pow2(2)
  {
    Pow2Values();
  }

  lemma ClCodeUse(cl: seq<nat>, items: seq<Item>)
    requires ClCode(cl, items)
    ensures |cl| == 19 && ItemsSendable(cl, items) && forall s :: 0 <= s < 19 ==> cl[s] < 8
  {
  }

  lemma HeaderSent(start: seq<bool>, nLit: nat, nDist: nat, nCl: nat, cl: seq<nat>, items: seq<Item>)
    requires 257 <= nLit && 1 <= nDist && 4 <= nCl <= 19 && |cl| == 19 && ItemsSendable(cl, items)
    ensures start + NatBits(2, 2) + CountBits(nLit, nDist, nCl) + ClBits(cl, nCl) + ItemsBits(cl, items)
         == start + (NatBits(2, 2) + HeaderBits(nLit, nDist, nCl, cl, items))
  {
    hide NatBits, CountBits, ClBits, ItemsBits;
  }

  /** An opening is short. */
  lemma OpeningSmall(ll: seq<nat>, d: seq<nat>, h: seq<bool>)
    requires OpensWith(ll, d, h)
    ensures |h| <= 4553
  {
    hide HeaderBits, NatBits, CodeOk, Feasible, Place, ItemsOk, UnpackAll, HeaderShort;
    var nCl, cl, items :| HeaderOk(ll, d, nCl, cl, items) && HeaderShort(ll, d, nCl, cl, items)
      && h == NatBits(2, 2) + HeaderBits(|ll|, |d|, nCl, cl, items);
    HeaderSmall(ll, d, nCl, cl, items);
  }

  lemma OpensIntro(ll: seq<nat>, d: seq<nat>, nCl: nat, cl: seq<nat>, items: seq<Item>)
    requires HeaderOk(ll, d, nCl, cl, items) && HeaderShort(ll, d, nCl, cl, items)
    ensures OpensWith(ll, d, NatBits(2, 2) + HeaderBits(|ll|, |d|, nCl, cl, items))
  {
    hide HeaderBits, NatBits;
  }

  /** Opens a block with codes built for the tokens. */
  method StartDynamicBlock(t: TokenBuffer, w: BitWriter, lit: HuffTable, dist: HuffTable, cl: HuffTable,
                           clCounts: array<nat>)
    returns (ghost ll: seq<nat>, ghost d: seq<nat>, ghost h: seq<bool>)
    requires w.Valid() && ClTables(t, w, lit, dist, cl, clCounts)
    requires Counted(t.tokens, t.litCounts[..], t.distCounts[..]) && 9 * |t.tokens| <= 8 * BUF_SIZE
    modifies w, w.out, t.litCounts, lit.sizes, lit.codes, dist.sizes, dist.codes, cl.sizes, cl.codes, clCounts
    ensures w.Valid() && w.bits == old(w.bits) + h && w.flushed == old(w.flushed)
    ensures lit.Holds(ll) && dist.Holds(d) && DynamicOpening(t.tokens, ll, d, h) && FitCodes(t.tokens, ll, d)
  {
    hide BitWriter.Valid, Counted, CodesOf, Feasible, CodesFor, OpensWith, CodeOk, LengthsOk, AllSendable, NearBest;
    hide FitCodes;
    ghost var lits, dists := t.litCounts[..], t.distCounts[..];
    CountedSizes(t.tokens, lits, dists);
    var nLit, nDist := BuildCodes(t, lit, dist);
    ll, d := lit.sizes[..nLit], dist.sizes[..nDist];
    CodesOfUse(t.litCounts[..288], nLit, lit.sizes[..], lit.codes[..]);
    CodesOfUse(t.distCounts[..32], nDist, dist.sizes[..], dist.codes[..]);
    AllHaveCodes(t.tokens, lits, dists, t.litCounts[..288], ll, d);
    CodesFit(t.tokens, lits, dists, lit.sizes[..288], dist.sizes[..32], nLit, nDist);
    assert lit.sizes[..288][..nLit] == ll && dist.sizes[..32][..nDist] == d && t.distCounts[..32] == dists[..32];
    h := SendHeader(w, lit, nLit, dist, nDist, cl, clCounts, ll, d);
  }

  /** The codes built are nearly the best. */
  lemma CodesFit(ts: seq<Token>, lit: seq<nat>, dist: seq<nat>, a: seq<nat>, b: seq<nat>, nLit: nat, nDist: nat)
    requires Counted(ts, lit, dist) && nLit <= |a| && nDist <= |b|
    requires NearBest(lit[256 := 1], a) && NearBest(dist[..32], b)
    ensures FitCodes(ts, a[..nLit], b[..nDist])
  {
    assert LitCounts(ts) == lit && DistCounts(ts) == dist[..32];
    hide NearBest, LitCounts, DistCounts, Counted;
    assert Extends(a, a[..nLit]) && Extends(b, b[..nDist]);
  }

  lemma CountedSizes(ts: seq<Token>, lit: seq<nat>, dist: seq<nat>)
    requires Counted(ts, lit, dist)
    ensures |lit| == 288 && |dist| == 288
  {
  }
}
