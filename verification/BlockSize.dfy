/** The size of a block with codes built for its tokens: what they take in the token buffer, and a bounded part more. */
module BlockSize {
  import opened Bits
  import opened CanonicalCode
  import opened Deflate
  import opened DeflateEncoding
  import opened HuffmanMerging
  import opened HuffmanTable
  import LimitCost
  import opened CodeLengthPacking
  import opened DynamicHeader
  import opened TokenBuffer

  // ----- codes that take as much space as the token buffer -----

  /** Nine bits for a literal, and ten for a length with its extra bits. */
  function LitAllowance(s: nat): (l: nat)
    ensures 1 <= l <= 15
  {
    if s <= 256 then 9 else if s <= 285 then Rest(10, LengthExtra(s)) else 15
  }

  /** Fifteen bits for a distance with its extra bits. */
  function DistAllowance(s: nat): (l: nat)
    ensures 1 <= l <= 15
  {
    if s < 30 then Rest(15, DistExtraBits(s)) else 15
  }

  function Rest(n: nat, e: nat): (l: nat)
    ensures e < n ==> l == n - e
    ensures 1 <= n ==> 1 <= l <= n
  {
    if e < n then n - e else 1
  }

  function LitAllowances(): (r: seq<nat>)
    ensures |r| == 288
  {
    seq(288, s requires 0 <= s < 288 => LitAllowance(s))
  }

  function DistAllowances(): (r: seq<nat>)
    ensures |r| == 32
  {
    seq(32, s requires 0 <= s < 32 => DistAllowance(s))
  }

  lemma {:induction false} SumAppend(a: seq<nat>, b: seq<nat>)
    ensures Sum(a + b) == Sum(a) + Sum(b)
  {
    if a == [] {
      assert a + b == b;
    } else {
      SumAppend(a[1..], b);
      assert (a + b)[1..] == a[1..] + b;
    }
  }

  lemma {:induction false} SumRepeat(v: nat, n: nat)
    ensures Sum(Repeat(v, n)) == n * v
  {
    if n > 0 {
      SumRepeat(v, n - 1);
      assert Repeat(v, n)[1..] == Repeat(v, n - 1);
      assert n * v == (n - 1) * v + v;
    }
  }

  /** The space that the allowances for literals and lengths take. */
  function LitSpaces(): (r: seq<nat>)
    ensures |r| == 288
  {
    Repeat(64, 257) + Repeat(32, 8) + Repeat(64, 4) + Repeat(128, 4) + Repeat(256, 4) + Repeat(512, 4) + Repeat(1024, 4)
      + [32] + Repeat(1, 2)
  }

  lemma SumMore(a: seq<nat>, v: nat, n: nat)
    ensures Sum(a + Repeat(v, n)) == Sum(a) + n * v
  {
    SumAppend(a, Repeat(v, n));
    SumRepeat(v, n);
  }

  lemma LitSpacesSum()
    ensures Sum(LitSpaces()) == 24674
  {
    SumRepeat(64, 257);
    assert [32] == Repeat(32, 1);
    hide Sum, Repeat;
    var a := Repeat(64, 257);
    SumMore(a, 32, 8);
    var b := a + Repeat(32, 8);
    SumMore(b, 64, 4);
    var c := b + Repeat(64, 4);
    SumMore(c, 128, 4);
    var d := c + Repeat(128, 4);
    SumMore(d, 256, 4);
    var e := d + Repeat(256, 4);
    SumMore(e, 512, 4);
    var f := e + Repeat(512, 4);
    SumMore(f, 1024, 4);
    var g := f + Repeat(1024, 4);
    SumMore(g, 32, 1);
    SumMore(g + [32], 1, 2);
  }

  lemma LitSpace(s: nat)
    requires s < 288
    ensures LitAllowance(s) <= 15 && Shl(1, 15 - LitAllowance(s)) == LitSpaces()[s]
  {
    LimitCost.PowersOfTwo();
    hide Shl;
    assert Shl(1, 0) == 1 by {
      LimitCost.FirstPower();
    }
  }

  /** For any literal and length symbols in use there is a code with the allowances. */
  lemma LitCode(counts: seq<nat>)
    requires |counts| == 288
    ensures CodeFor(counts, LitAllowances())
  {
    var a := LitAllowances();
    LitSpacesSum();
    hide Sum, LitSpaces, LitAllowance, Shl;
    forall s | 0 <= s < 288 ensures Spaces(counts, a)[s] <= LitSpaces()[s] {
      LitSpace(s);
    }
    SumMonotone(Spaces(counts, a), LitSpaces());
  }

  /** Each power of two twice, from 2 to 2^n. */
  function Pairs(n: nat): (r: seq<nat>)
    ensures |r| == 2 * n
  {
    if n == 0 then [] else Pairs(n - 1) + Repeat(Shl(1, n), 2)
  }

  lemma {:induction false} PairsAt(n: nat, k: nat)
    requires k < 2 * n
    ensures Pairs(n)[k] == Shl(1, k / 2 + 1)
  {
    hide Shl;
    if k < 2 * (n - 1) {
      PairsAt(n - 1, k);
    }
  }

  lemma {:induction false} PairsSum(n: nat)
    ensures Sum(Pairs(n)) + 4 == Shl(1, n + 2)
  {
    if n > 0 {
      PairsSum(n - 1);
      hide Sum, Repeat;
      SumMore(Pairs(n - 1), Shl(1, n), 2);
      assert Shl(1, n + 2) == 2 * Shl(1, n + 1) == 4 * Shl(1, n);
    }
  }

  /** The space that the allowances for distances take: all of it. */
  function DistSpaces(): (r: seq<nat>)
    ensures |r| == 32
  {
    Repeat(1, 4) + Pairs(13) + Repeat(0, 2)
  }

  lemma DistRoom(s: nat)
    requires s < 30
    ensures 15 - DistAllowance(s) == if s < 4 then 0 else s / 2 - 1
  {
    assert DistExtraBits(s) == if s < 4 then 0 else s / 2 - 1;
  }

  lemma DistSpacesAt(s: nat)
    requires s < 30
    ensures DistSpaces()[s] == if s < 4 then 1 else Pairs(13)[s - 4]
  {
    hide Pairs;
  }

  lemma DistSpace(s: nat)
    requires s < 30
    ensures DistAllowance(s) <= 15 && Shl(1, 15 - DistAllowance(s)) == DistSpaces()[s]
  {
    hide *;
    DistRoom(s);
    DistSpacesAt(s);
    if s < 4 {
      LimitCost.FirstPower();
    } else {
      LongDist(s);
    }
  }

  lemma LongDist(s: nat)
    requires 4 <= s < 30
    ensures Pairs(13)[s - 4] == Shl(1, s / 2 - 1)
  {
    hide *;
    PairsAt(13, s - 4);
    HalfLess(s);
  }

  lemma HalfLess(s: nat)
    requires 4 <= s
    ensures (s - 4) / 2 + 1 == s / 2 - 1
  {
  }

  lemma DistSpacesSum()
    ensures Sum(DistSpaces()) == 32768
  {
    PairsSum(13);
    Pow2Values();
    SumRepeat(1, 4);
    hide Sum, Repeat, Shl, Pairs;
    SumAppend(Repeat(1, 4), Pairs(13));
    SumMore(Repeat(1, 4) + Pairs(13), 0, 2);
  }

  /** For any distance symbols in use there is a code with the allowances. */
  lemma DistCode(counts: seq<nat>)
    requires |counts| == 32 && counts[30] == counts[31] == 0
    ensures CodeFor(counts, DistAllowances())
  {
    var a := DistAllowances();
    DistSpacesSum();
    hide Sum, DistSpaces, DistAllowance, Shl;
    forall s | 0 <= s < 32 ensures Spaces(counts, a)[s] <= DistSpaces()[s] {
      if s < 30 {
        DistSpace(s);
      }
    }
    SumMonotone(Spaces(counts, a), DistSpaces());
  }

  // ----- the bits of a body -----

  /** The bits of a token, if the codes have these lengths. */
  function TokenLen(a: seq<nat>, b: seq<nat>, t: Token): nat
    requires |a| == 288 && |b| == 32 && Packable(t)
  {
    match t
    case Literal(x) => a[x]
    case Match(len, dist) =>
      LitSymSmall(t);
      a[LenSym(len - 3)] + LenExtra(len - 3) + (b[DistSym(dist - 1)] + DistExtra(dist - 1))
  }

  function TokensLen(a: seq<nat>, b: seq<nat>, ts: seq<Token>): nat
    requires |a| == 288 && |b| == 32 && AllPackable(ts)
  {
    if ts == [] then 0 else TokensLen(a, b, ts[..|ts| - 1]) + TokenLen(a, b, ts[|ts| - 1])
  }

  /** The lengths of a code of which those from some symbol on may have been left out. */
  ghost predicate Extends(a: seq<nat>, lens: seq<nat>) {
    lens <= a
  }

  lemma TokenBitsLen(ll: seq<nat>, d: seq<nat>, a: seq<nat>, b: seq<nat>, t: Token)
    requires |a| == 288 && |b| == 32 && Extends(a, ll) && Extends(b, d) && Packable(t) && Sendable(ll, d, t)
    ensures |TokenBits(ll, d, t)| == TokenLen(a, b, t)
  {
    hide CodeBits, NatBits, LenSym, DistSym, LenExtra, DistExtra;
  }

  lemma {:induction false} TokensBitsLen(ll: seq<nat>, d: seq<nat>, a: seq<nat>, b: seq<nat>, ts: seq<Token>)
    requires |a| == 288 && |b| == 32 && Extends(a, ll) && Extends(b, d) && AllPackable(ts) && AllSendable(ll, d, ts)
    ensures |TokensBits(ll, d, ts)| == TokensLen(a, b, ts)
  {
    hide TokenBits, TokenLen;
    if ts != [] {
      TokensBitsLen(ll, d, a, b, ts[..|ts| - 1]);
      TokenBitsLen(ll, d, a, b, ts[|ts| - 1]);
    }
  }

  /** How often each symbol is needed. */
  function LitCounts(ts: seq<Token>): (r: seq<nat>)
    requires AllPackable(ts)
    ensures |r| == 288
  {
    seq(288, s requires 0 <= s < 288 => LitCount(ts, s))
  }

  function DistCounts(ts: seq<Token>): (r: seq<nat>)
    requires AllPackable(ts)
    ensures |r| == 32
  {
    seq(32, s requires 0 <= s < 32 => DistCount(ts, s))
  }

  function ExtraLen(ts: seq<Token>): nat
    requires AllPackable(ts)
  {
    if ts == [] then 0 else
    var t := ts[|ts| - 1];
    ExtraLen(ts[..|ts| - 1]) + if t.Match? then LenExtra(t.len - 3) + DistExtra(t.dist - 1) else 0
  }

  /** One more of a symbol. */
  lemma WeightMore(counts: seq<nat>, a: seq<nat>, x: nat)
    requires |a| == |counts| && x < |counts|
    ensures Weight(counts[x := counts[x] + 1], a) == Weight(counts, a) + a[x]
  {
    var p := Products(counts, a);
    assert (counts[x] + 1) * a[x] == counts[x] * a[x] + a[x];
    assert Products(counts[x := counts[x] + 1], a) == p[x := p[x] + a[x]];
    hide Sum;
    SumUpdate(p, x, p[x] + a[x]);
  }

  lemma WeightNone(counts: seq<nat>, a: seq<nat>)
    requires |a| == |counts| && forall s :: 0 <= s < |counts| ==> counts[s] == 0
    ensures Weight(counts, a) == 0
  {
    assert forall s :: 0 <= s < |counts| ==> Products(counts, a)[s] == 0 * a[s];
    SumZeros(Products(counts, a));
  }

  lemma {:induction false} TokensLenIs(a: seq<nat>, b: seq<nat>, ts: seq<Token>)
    requires |a| == 288 && |b| == 32 && AllPackable(ts)
    ensures TokensLen(a, b, ts) == Weight(LitCounts(ts), a) + Weight(DistCounts(ts), b) + ExtraLen(ts)
  {
    hide Weight, LenExtra, DistExtra, LenSym, DistSym;
    if ts == [] {
      WeightNone(LitCounts(ts), a);
      WeightNone(DistCounts(ts), b);
    } else {
      var n := |ts| - 1;
      var t, u := ts[n], ts[..n];
      TokensLenIs(a, b, u);
      LitSymSmall(t);
      var x := LitSym(t);
      assert LitCounts(ts) == LitCounts(u)[x := LitCounts(u)[x] + 1];
      WeightMore(LitCounts(u), a, x);
      if t.Match? {
        var y := DistSym(t.dist - 1);
        assert DistCounts(ts) == DistCounts(u)[y := DistCounts(u)[y] + 1];
        WeightMore(DistCounts(u), b, y);
      } else {
        assert DistCounts(ts) == DistCounts(u);
      }
    }
  }

  // ----- the bits of a whole block -----

  /** With the allowances a literal takes nine bits and a match 25. */
  lemma AllowedToken(t: Token)
    requires Packable(t)
    ensures TokenLen(LitAllowances(), DistAllowances(), t) == 1 + 8 * |Payload(t)|
  {
    LitSymSmall(t);
    if t.Match? {
      LenTables(t.len - 3);
      DistTables(t.dist - 1);
      DistExtraSmall(DistSym(t.dist - 1));
    }
    hide LenSym, DistSym, LengthExtra, DistExtraBits;
  }

  lemma DistExtraSmall(s: nat)
    requires s < 30
    ensures DistExtraBits(s) <= 13
  {
  }

  lemma {:induction false} AllowedTokens(ts: seq<Token>)
    requires AllPackable(ts)
    ensures TokensLen(LitAllowances(), DistAllowances(), ts) == |ts| + 8 * |Payloads(ts)|
  {
    hide TokenLen, Payload, LitAllowances, DistAllowances;
    if ts != [] {
      var n := |ts| - 1;
      AllowedTokens(ts[..n]);
      AllowedToken(ts[n]);
      PayloadsSnoc(ts[..n], ts[n]);
      assert ts == ts[..n] + [ts[n]];
    }
  }

  /** That is what the token buffer has for them, eight tokens' flags being a byte. */
  lemma {:induction false} PackSize(ts: seq<Token>)
    requires AllPackable(ts)
    ensures |ts| + 8 * |Payloads(ts)| <= 8 * |Pack(ts)|
    decreases |ts|
  {
    hide Payload, Flags;
    if ts != [] {
      var m := if 8 < |ts| then 8 else |ts|;
      PackFirst(ts, m);
      PackSize(ts[m..]);
      PayloadsAppend(ts[..m], ts[m..]);
      assert ts[..m] + ts[m..] == ts;
    }
  }

  lemma {:induction false} PayloadsAppend(a: seq<Token>, b: seq<Token>)
    requires AllPackable(a) && AllPackable(b)
    ensures Payloads(a + b) == Payloads(a) + Payloads(b)
  {
    hide Payload;
    if a == [] {
      assert a + b == b;
    } else {
      PayloadsAppend(a[1..], b);
      assert (a + b)[1..] == a[1..] + b;
    }
  }

  /** Both codes of a block, with the end-of-block symbol, are nearly the best for the tokens. */
  ghost predicate FitCodes(ts: seq<Token>, ll: seq<nat>, d: seq<nat>) {
    && AllPackable(ts)
    && exists a, b ::
         NearBest(LitCounts(ts)[256 := 1], a) && Extends(a, ll) && NearBest(DistCounts(ts), b) && Extends(b, d)
  }

  lemma NoEnd(ts: seq<Token>)
    requires AllPackable(ts)
    ensures LitCounts(ts)[256] == 0 && DistCounts(ts)[30] == DistCounts(ts)[31] == 0
  {
    EndAbsent(ts, 256);
    DistAbsent(ts, 30);
    DistAbsent(ts, 31);
  }

  lemma {:induction false} EndAbsent(ts: seq<Token>, s: nat)
    requires AllPackable(ts) && s == 256
    ensures LitCount(ts, s) == 0
  {
    if ts != [] {
      EndAbsent(ts[..|ts| - 1], s);
      var t := ts[|ts| - 1];
      if t.Match? {
        LenTables(t.len - 3);
      }
    }
  }

  lemma {:induction false} DistAbsent(ts: seq<Token>, s: nat)
    requires AllPackable(ts) && 30 <= s
    ensures DistCount(ts, s) == 0
  {
    if ts != [] {
      DistAbsent(ts[..|ts| - 1], s);
      LitSymSmall(ts[|ts| - 1]);
    }
  }

  lemma NearBestThan(counts: seq<nat>, a: seq<nat>, x: seq<nat>)
    requires NearBest(counts, a) && CodeFor(counts, x)
    ensures |a| == |x| == |counts| && Weight(counts, a) <= Weight(counts, x) + 374 * |counts|
  {
  }

  lemma EndAllowance()
    ensures LitAllowances()[256] == 9
  {
  }

  lemma BodyLen(ts: seq<Token>, a: seq<nat>, b: seq<nat>)
    requires AllPackable(ts) && NearBest(LitCounts(ts)[256 := 1], a) && NearBest(DistCounts(ts), b)
    ensures |a| == 288 && |b| == 32
    ensures TokensLen(a, b, ts) + a[256] <= TokensLen(LitAllowances(), DistAllowances(), ts) + 9 + 374 * 320
  {
    hide *;
    var lit, dist, x, y := LitCounts(ts), DistCounts(ts), LitAllowances(), DistAllowances();
    NoEnd(ts);
    LitCode(lit[256 := 1]);
    DistCode(dist);
    EndAllowance();
    NearBestThan(lit[256 := 1], a, x);
    NearBestThan(dist, b, y);
    TokensLenIs(a, b, ts);
    TokensLenIs(x, y, ts);
    WeightMore(lit, a, 256);
    WeightMore(lit, x, 256);
  }

  /** A header, from the block type on, takes at most 4553 bits. */
  lemma HeaderSmall(ll: seq<nat>, d: seq<nat>, nCl: nat, cl: seq<nat>, items: seq<Item>)
    requires HeaderOk(ll, d, nCl, cl, items)
    ensures |NatBits(2, 2) + HeaderBits(|ll|, |d|, nCl, cl, items)| <= 4553
  {
    UnpackGrows([], items);
    hide UnpackAll, CodeOk, Feasible, NatBits, Place;
    ItemsSmall(cl, items);
  }

  lemma {:induction false} ItemsSmall(cl: seq<nat>, items: seq<Item>)
    requires |cl| == 19 && (forall s :: 0 <= s < 19 ==> cl[s] < 8) && ItemsSendable(cl, items)
    ensures |ItemsBits(cl, items)| <= 14 * |items|
  {
    hide CodeBits, NatBits;
    if items != [] {
      ItemsSmall(cl, items[..|items| - 1]);
    }
  }

  /** A body takes at most the bits of the token buffer, and a bounded number more. */
  lemma BodySmall(ts: seq<Token>, ll: seq<nat>, d: seq<nat>)
    requires AllSendable(ll, d, ts) && Used(ll, 256) && FitCodes(ts, ll, d)
    ensures |BodyBits(ll, d, ts)| <= 8 * |Pack(ts)| + 9 + 374 * 320
  {
    var a, b :| NearBest(LitCounts(ts)[256 := 1], a) && Extends(a, ll) && NearBest(DistCounts(ts), b) && Extends(b, d);
    BodyLen(ts, a, b);
    assert |a| == 288 && |b| == 32;
    hide NearBest, LitCounts, DistCounts, LitAllowances, DistAllowances, TokensLen, TokensBits, Pack, Payloads;
    hide CodeBits;
    TokensBitsLen(ll, d, a, b, ts);
    AllowedTokens(ts);
    PackSize(ts);
  }
}
