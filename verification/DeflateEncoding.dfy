/** What the compressor's block writer sends for a token list, and that the format's decoder gets the tokens back. */
module DeflateEncoding {
  import opened Bits
  import opened CanonicalCode
  import opened Deflate

  // ----- the compressor's tables, as formulas -----

  /** How many extra bits go with match length m + 3. */
  function LenExtra(m: nat): (e: nat)
    requires m < 256
    ensures e <= 5
  {
    if m < 8 || m == 255 then 0
    else if m < 16 then 1 else if m < 32 then 2 else if m < 64 then 3 else if m < 128 then 4 else 5
  }

  /** The symbol of match length m + 3. */
  function LenSym(m: nat): nat
    requires m < 256
  {
    if m < 8 then 257 + m
    else if m == 255 then 285
    else 257 + 4 * LenExtra(m) + Shr(m, LenExtra(m))
  }

  /** How many extra bits go with distance x + 1. */
  function DistExtra(x: nat): (e: nat)
    requires x < 32768
    ensures e <= 13
  {
    if x < 4 then 0 else if x < 8 then 1 else if x < 16 then 2 else if x < 32 then 3 else if x < 64 then 4
    else if x < 128 then 5 else if x < 256 then 6 else if x < 512 then 7 else if x < 1024 then 8
    else if x < 2048 then 9 else if x < 4096 then 10 else if x < 8192 then 11 else if x < 16384 then 12 else 13
  }

  /** The symbol of distance x + 1. */
  function DistSym(x: nat): nat
    requires x < 32768
  {
    if x < 4 then x else 2 * DistExtra(x) + Shr(x, DistExtra(x))
  }

  /** The quotient of v by 2^e lies between a and b when v lies between their multiples. */
  lemma QuotientBetween(v: nat, e: nat, a: nat, b: nat)
    requires Shl(a, e) <= v < Shl(b, e)
    ensures a <= Shr(v, e) < b
  {
    var q := Shr(v, e);
    SplitShift(v, e);
    LowBound(v, e);
    ShlAdd(q, 1, e);
    if q < a {
      ShlMonotone(q + 1, a, e);
    }
    if b <= q {
      ShlMonotone(b, q, e);
    }
  }

  lemma LenGroup(e: nat, q: nat)
    requires 1 <= e <= 5 && 4 <= q < 8
    ensures LengthBase(257 + 4 * e + q) == Shl(q, e) + 3
    ensures 4 * e + q < 28 ==> LengthExtra(257 + 4 * e + q) == e
  {
    if e <= 2 {
      LenGroupLow(e, q);
    } else {
      LenGroupHigh(e, q);
    }
  }

  lemma LenGroupLow(e: nat, q: nat)
    requires 1 <= e <= 2 && 4 <= q < 8
    ensures LengthBase(257 + 4 * e + q) == Shl(q, e) + 3 && LengthExtra(257 + 4 * e + q) == e
  {
    if e == 1 {
      assert Shl(4, 1) == 8 && Shl(5, 1) == 10 && Shl(6, 1) == 12 && Shl(7, 1) == 14;
    } else {
      assert Shl(4, 2) == 16 && Shl(5, 2) == 20 && Shl(6, 2) == 24 && Shl(7, 2) == 28;
    }
  }

  lemma LenGroupHigh(e: nat, q: nat)
    requires 3 <= e <= 5 && 4 <= q < 8
    ensures LengthBase(257 + 4 * e + q) == Shl(q, e) + 3
    ensures 4 * e + q < 28 ==> LengthExtra(257 + 4 * e + q) == e
  {
    if e == 3 {
      LenGroupThree(q);
    } else if e == 4 {
      LenGroupFour(q);
    } else {
      LenGroupFive(q);
    }
  }

  lemma LenGroupThree(q: nat)
    requires 4 <= q < 8
    ensures LengthBase(269 + q) == Shl(q, 3) + 3 && LengthExtra(269 + q) == 3
  {
    assert Shl(4, 3) == 32 && Shl(5, 3) == 40 && Shl(6, 3) == 48 && Shl(7, 3) == 56;
  }

  lemma LenGroupFour(q: nat)
    requires 4 <= q < 8
    ensures LengthBase(273 + q) == Shl(q, 4) + 3 && LengthExtra(273 + q) == 4
  {
    assert Shl(4, 4) == 64 && Shl(5, 4) == 80 && Shl(6, 4) == 96 && Shl(7, 4) == 112;
  }

  lemma LenGroupFive(q: nat)
    requires 4 <= q < 8
    ensures LengthBase(277 + q) == Shl(q, 5) + 3 && (20 + q < 28 ==> LengthExtra(277 + q) == 5)
  {
    assert Shl(4, 5) == 128 && Shl(5, 5) == 160 && Shl(6, 5) == 192 && Shl(7, 5) == 224;
  }

  lemma LenRange(m: nat)
    requires 8 <= m < 255
    ensures 1 <= LenExtra(m) <= 5 && Shl(4, LenExtra(m)) <= m < Shl(8, LenExtra(m))
  {
    assert Shl(4, 1) == 8 && Shl(4, 2) == 16 && Shl(4, 3) == 32 && Shl(4, 4) == 64 && Shl(4, 5) == 128;
    assert Shl(8, 1) == 16 && Shl(8, 2) == 32 && Shl(8, 3) == 64 && Shl(8, 4) == 128 && Shl(8, 5) == 256;
  }

  /** The decoder's tables undo the compressor's for every match length. */
  lemma LenTables(m: nat)
    requires m < 256
    ensures 257 <= LenSym(m) <= 285
    ensures LengthExtra(LenSym(m)) == LenExtra(m)
    ensures LengthBase(LenSym(m)) + Low(m, LenExtra(m)) == m + 3
    ensures LenSym(m) == 285 <==> m == 255
  {
    if 8 <= m < 255 {
      LenTablesGrouped(m);
      LastGroup(m);
    } else if m < 8 {
      FirstLens(m);
    }
  }

  lemma LenTablesGrouped(m: nat)
    requires 8 <= m < 255
    ensures 257 <= LenSym(m) <= 285
    ensures LengthExtra(LenSym(m)) == LenExtra(m)
    ensures LengthBase(LenSym(m)) + Low(m, LenExtra(m)) == m + 3
  {
    hide LengthBase, LengthExtra, LenExtra, Shl, Shr, Low;
    var e := LenExtra(m);
    LenRange(m);
    QuotientBetween(m, e, 4, 8);
    SplitShift(m, e);
    LenGroup(e, Shr(m, e));
    LastGroup(m);
  }

  /** The longest length of the last group has a symbol of its own. */
  lemma LastGroup(m: nat)
    requires 8 <= m < 255
    ensures LenExtra(m) < 5 || Shr(m, LenExtra(m)) < 8
    ensures 4 * LenExtra(m) + Shr(m, LenExtra(m)) < 28
  {
    var e := LenExtra(m);
    LenRange(m);
    QuotientBetween(m, e, 4, 8);
  }

  lemma ShortestDistGroup(e: nat, q: nat)
    requires 1 <= e <= 3 && 2 <= q < 4
    ensures DIST_BASE[2 * e + q] == Shl(q, e) + 1 && DIST_EXTRA[2 * e + q] == e
  {
    assert Shl(2, 1) == 4 && Shl(3, 1) == 6;
    if e == 2 {
      assert Shl(2, 2) == 8 && Shl(3, 2) == 12;
    } else if e == 3 {
      assert Shl(2, 3) == 16 && Shl(3, 3) == 24;
    }
  }

  lemma ShortDistGroup(e: nat, q: nat)
    requires 4 <= e <= 6 && 2 <= q < 4
    ensures DIST_BASE[2 * e + q] == Shl(q, e) + 1 && DIST_EXTRA[2 * e + q] == e
  {
    if e == 4 {
      assert Shl(2, 4) == 32 && Shl(3, 4) == 48;
    } else if e == 5 {
      assert Shl(2, 5) == 64 && Shl(3, 5) == 96;
    } else {
      assert Shl(2, 6) == 128 && Shl(3, 6) == 192;
    }
  }

  lemma MiddleDistGroup(e: nat, q: nat)
    requires 7 <= e <= 9 && 2 <= q < 4
    ensures DIST_BASE[2 * e + q] == Shl(q, e) + 1 && DIST_EXTRA[2 * e + q] == e
  {
    if e == 7 {
      assert Shl(2, 7) == 256 && Shl(3, 7) == 384;
    } else if e == 8 {
      assert Shl(2, 8) == 512 && Shl(3, 8) == 768;
    } else {
      assert Shl(2, 9) == 1024 && Shl(3, 9) == 1536;
    }
  }

  lemma LongDistGroup(e: nat, q: nat)
    requires 10 <= e <= 13 && 2 <= q < 4
    ensures DIST_BASE[2 * e + q] == Shl(q, e) + 1 && DIST_EXTRA[2 * e + q] == e
  {
    if e == 10 {
      assert Shl(2, 10) == 2048 && Shl(3, 10) == 3072;
    } else if e == 11 {
      assert Shl(2, 11) == 4096 && Shl(3, 11) == 6144;
    } else if e == 12 {
      assert Shl(2, 12) == 8192 && Shl(3, 12) == 12288;
    } else {
      assert Shl(2, 13) == 16384 && Shl(3, 13) == 24576;
    }
  }

  lemma FirstDists(x: nat)
    requires x < 4
    ensures DIST_BASE[x] == x + 1 && DIST_EXTRA[x] == 0
  {
  }

  lemma FirstLens(m: nat)
    requires m < 8
    ensures LengthBase(257 + m) == m + 3 && LengthExtra(257 + m) == 0
  {
  }

  lemma DistRange(x: nat)
    requires 4 <= x < 32768
    ensures 1 <= DistExtra(x) <= 13 && Shl(2, DistExtra(x)) <= x < Shl(4, DistExtra(x))
  {
    assert Shl(2, 1) == 4 && Shl(2, 2) == 8 && Shl(2, 3) == 16 && Shl(2, 4) == 32 && Shl(2, 5) == 64;
    assert Shl(2, 6) == 128 && Shl(2, 7) == 256 && Shl(2, 8) == 512 && Shl(2, 9) == 1024 && Shl(2, 10) == 2048;
    assert Shl(2, 11) == 4096 && Shl(2, 12) == 8192 && Shl(2, 13) == 16384;
    Doubled(DistExtra(x));
  }

  lemma {:induction false} Doubled(e: nat)
    ensures Shl(4, e) == 2 * Shl(2, e)
  {
    if e > 0 {
      Doubled(e - 1);
    }
  }

  lemma DistGroup(e: nat, q: nat)
    requires 1 <= e <= 13 && 2 <= q < 4
    ensures DistBase(2 * e + q) == Shl(q, e) + 1 && DistExtraBits(2 * e + q) == e
  {
    hide Shl;
    if e <= 3 {
      ShortestDistGroup(e, q);
    } else if e <= 6 {
      ShortDistGroup(e, q);
    } else if e <= 9 {
      MiddleDistGroup(e, q);
    } else {
      LongDistGroup(e, q);
    }
  }

  /** The decoder's tables undo the compressor's for every match distance. */
  lemma DistTables(x: nat)
    requires x < 32768
    ensures DistSym(x) < 30
    ensures DistExtraBits(DistSym(x)) == DistExtra(x)
    ensures DistBase(DistSym(x)) + Low(x, DistExtra(x)) == x + 1
  {
    if 4 <= x {
      DistTablesGrouped(x);
    } else {
      FirstDists(x);
    }
  }

  lemma DistTablesGrouped(x: nat)
    requires 4 <= x < 32768
    ensures DistSym(x) < 30
    ensures DistExtraBits(DistSym(x)) == DistExtra(x)
    ensures DistBase(DistSym(x)) + Low(x, DistExtra(x)) == x + 1
  {
    hide DistBase, DistExtraBits, DistExtra, Shl, Shr, Low;
    var e := DistExtra(x);
    DistRange(x);
    QuotientBetween(x, e, 2, 4);
    SplitShift(x, e);
    DistGroup(e, Shr(x, e));
  }

  // ----- a block body -----

  /** The codes needed to send a token have lengths. */
  ghost predicate Sendable(ll: seq<nat>, d: seq<nat>, t: Token) {
    match t
    case Literal(b) => Used(ll, b)
    case Match(len, dist) =>
      3 <= len <= 258 && 1 <= dist <= 32768 && Used(ll, LenSym(len - 3)) && Used(d, DistSym(dist - 1))
  }

  /** The bits that send a token. */
  function TokenBits(ll: seq<nat>, d: seq<nat>, t: Token): seq<bool>
    requires Sendable(ll, d, t)
  {
    match t
    case Literal(b) => CodeBits(ll, b)
    case Match(len, dist) =>
      (CodeBits(ll, LenSym(len - 3)) + NatBits(len - 3, LenExtra(len - 3))) +
      (CodeBits(d, DistSym(dist - 1)) + NatBits(dist - 1, DistExtra(dist - 1)))
  }

  ghost predicate AllSendable(ll: seq<nat>, d: seq<nat>, ts: seq<Token>) {
    forall i :: 0 <= i < |ts| ==> Sendable(ll, d, ts[i])
  }

  /** The bits that send a token list. */
  function TokensBits(ll: seq<nat>, d: seq<nat>, ts: seq<Token>): seq<bool>
    requires AllSendable(ll, d, ts)
  {
    if ts == [] then [] else TokensBits(ll, d, ts[..|ts| - 1]) + TokenBits(ll, d, ts[|ts| - 1])
  }

  /** The bits of a block body: the tokens and the end-of-block code. */
  function BodyBits(ll: seq<nat>, d: seq<nat>, ts: seq<Token>): seq<bool>
    requires AllSendable(ll, d, ts) && Used(ll, 256)
  {
    TokensBits(ll, d, ts) + CodeBits(ll, 256)
  }

  lemma {:induction false} TokensBitsFirst(ll: seq<nat>, d: seq<nat>, ts: seq<Token>)
    requires AllSendable(ll, d, ts) && ts != []
    ensures TokensBits(ll, d, ts) == TokenBits(ll, d, ts[0]) + TokensBits(ll, d, ts[1..])
  {
    hide TokenBits;
    if |ts| == 1 {
      assert ts[..0] == [] && ts[1..] == [];
    } else {
      var n := |ts| - 1;
      TokensBitsFirst(ll, d, ts[..n]);
      assert ts[..n][1..] == ts[1..][..n - 1];
      Associate(TokenBits(ll, d, ts[0]), TokensBits(ll, d, ts[1..][..n - 1]), TokenBits(ll, d, ts[n]));
    }
  }

  lemma FieldOf(bits: seq<bool>, pos: nat, v: nat, n: nat)
    requires At(bits, pos, NatBits(v, n))
    ensures Field(bits, pos, n) == Some(Low(v, n))
  {
    BitsNatOfNatBits(v, n);
  }

  /** The decoder reads back a symbol and its extra bits. */
  lemma ExtendedDecodes(lens: seq<nat>, s: nat, v: nat, n: nat, base: nat, bits: seq<bool>, pos: nat)
    requires Feasible(lens) && Used(lens, s) && At(bits, pos, CodeBits(lens, s) + NatBits(v, n))
    ensures Symbol(lens, bits, pos) == Some(s)
    ensures Extended(base, n, bits, pos + lens[s]) == Some((base + Low(v, n), pos + lens[s] + n))
  {
    AtAppend(bits, pos, CodeBits(lens, s), NatBits(v, n));
    hide CodeBits, NatBits, Feasible, At, Low;
    SymbolIs(lens, s, bits, pos);
    FieldOf(bits, pos + lens[s], v, n);
  }

  /** The decoder reads back a match. */
  lemma MatchDecodes(ll: seq<nat>, d: seq<nat>, t: Token, bits: seq<bool>, pos: nat)
    requires Feasible(ll) && Feasible(d) && t.Match? && Sendable(ll, d, t)
    requires At(bits, pos, TokenBits(ll, d, t))
    ensures var s := LenSym(t.len - 3);
      && 257 <= s <= 285 && Symbol(ll, bits, pos) == Some(s)
      && MatchAt(d, s, bits, pos + ll[s]) == Some((t, pos + |TokenBits(ll, d, t)|))
  {
    hide *;
    var m, x := SendableMatch(ll, d, t);
    var s, u := LenSym(m), DistSym(x);
    LenTables(m);
    DistTables(x);
    var a, b := CodeBits(ll, s) + NatBits(m, LenExtra(m)), CodeBits(d, u) + NatBits(x, DistExtra(x));
    AtAppend(bits, pos, a, b);
    ExtendedDecodes(ll, s, m, LenExtra(m), LengthBase(s), bits, pos);
    ExtendedDecodes(d, u, x, DistExtra(x), DistBase(u), bits, pos + |a|);
    var p1 := pos + ll[s] + LenExtra(m);
    MatchReads(d, s, u, bits, pos + ll[s], m + 3, p1, x + 1, p1 + d[u] + DistExtra(x));
  }

  /** The numbers a match is sent as. */
  lemma SendableMatch(ll: seq<nat>, d: seq<nat>, t: Token) returns (m: nat, x: nat)
    requires t.Match? && Sendable(ll, d, t)
    ensures m == t.len - 3 < 256 && x == t.dist - 1 < 32768 && t == Match(m + 3, x + 1)
    ensures Used(ll, LenSym(m)) && LenSym(m) < |ll| && Used(d, DistSym(x)) && DistSym(x) < |d|
    ensures TokenBits(ll, d, t)
         == (CodeBits(ll, LenSym(m)) + NatBits(m, LenExtra(m))) + (CodeBits(d, DistSym(x)) + NatBits(x, DistExtra(x)))
    ensures |TokenBits(ll, d, t)| == ll[LenSym(m)] + LenExtra(m) + d[DistSym(x)] + DistExtra(x)
  {
    hide LenSym, LenExtra, DistSym, DistExtra, CodeBits, NatBits;
    m, x := t.len - 3, t.dist - 1;
  }

  /** A match is read field by field. */
  lemma MatchReads(d: seq<nat>, s: nat, u: nat, bits: seq<bool>, pos: nat, len: nat, p1: nat, dist: nat, p2: nat)
    requires 257 <= s <= 285 && u < 30 && u < |d|
    requires Extended(LengthBase(s), LengthExtra(s), bits, pos) == Some((len, p1)) && Symbol(d, bits, p1) == Some(u)
    requires Extended(DistBase(u), DistExtraBits(u), bits, p1 + d[u]) == Some((dist, p2))
    ensures MatchAt(d, s, bits, pos) == Some((Match(len, dist), p2))
  {
    hide Extended, Symbol, LengthBase, LengthExtra, DistBase, DistExtraBits;
  }

  /** Decoding one token. */
  lemma BodyToken(ll: seq<nat>, d: seq<nat>, t: Token, bits: seq<bool>, pos: nat, out: seq<byte>)
    requires Feasible(ll) && Feasible(d) && Sendable(ll, d, t) && TokenOk(t, |out|)
    requires At(bits, pos, TokenBits(ll, d, t))
    ensures Body(ll, d, bits, pos, out) == Body(ll, d, bits, pos + |TokenBits(ll, d, t)|, Apply(out, t))
  {
    hide LenSym, DistSym, LenExtra, DistExtra, CodeBits, NatBits, Feasible, At, Symbol, MatchAt, Copy;
    if t.Literal? {
      SymbolIs(ll, t.lit, bits, pos);
    } else {
      MatchDecodes(ll, d, t, bits, pos);
    }
  }

  lemma Associate<T>(a: seq<T>, b: seq<T>, c: seq<T>)
    ensures (a + b) + c == a + (b + c)
  {
  }

  lemma BodyBitsFirst(ll: seq<nat>, d: seq<nat>, ts: seq<Token>)
    requires AllSendable(ll, d, ts) && ts != [] && Used(ll, 256)
    ensures BodyBits(ll, d, ts) == TokenBits(ll, d, ts[0]) + BodyBits(ll, d, ts[1..])
  {
    TokensBitsFirst(ll, d, ts);
    hide TokenBits, TokensBits, CodeBits;
    Associate(TokenBits(ll, d, ts[0]), TokensBits(ll, d, ts[1..]), CodeBits(ll, 256));
  }

  /** Decoding undoes the block writer: the body of a token list decodes to what the tokens stand for. */
  lemma {:induction false} BodyRoundTrip(ll: seq<nat>, d: seq<nat>, ts: seq<Token>, bits: seq<bool>, pos: nat,
                                         out: seq<byte>)
    requires Feasible(ll) && Feasible(d) && Used(ll, 256) && AllSendable(ll, d, ts) && TokensOk(ts, |out|)
    requires At(bits, pos, BodyBits(ll, d, ts))
    ensures Body(ll, d, bits, pos, out) == Some(Progress(Expand(out, ts), pos + |BodyBits(ll, d, ts)|))
    decreases |ts|
  {
    hide CodeBits, TokensBits, TokenBits, At, Feasible, Apply, Symbol, MatchAt, BodyBits, Body;
    if ts == [] {
      BodyEnds(ll, d, bits, pos, out);
      assert ts == [];
    } else {
      var t, rest := ts[0], ts[1..];
      BodyBitsFirst(ll, d, ts);
      AtAppend(bits, pos, TokenBits(ll, d, t), BodyBits(ll, d, rest));
      BodyToken(ll, d, t, bits, pos, out);
      BodyRoundTrip(ll, d, rest, bits, pos + |TokenBits(ll, d, t)|, Apply(out, t));
    }
  }

  lemma BodyEnds(ll: seq<nat>, d: seq<nat>, bits: seq<bool>, pos: nat, out: seq<byte>)
    requires Feasible(ll) && Used(ll, 256) && At(bits, pos, BodyBits(ll, d, []))
    ensures Body(ll, d, bits, pos, out) == Some(Progress(out, pos + |BodyBits(ll, d, [])|))
  {
    hide CodeBits, At, Feasible, Symbol, MatchAt;
    assert TokensBits(ll, d, []) == [];
    assert [] + CodeBits(ll, 256) == CodeBits(ll, 256);
    SymbolIs(ll, 256, bits, pos);
  }
}
