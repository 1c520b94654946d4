/** A stream with codes of its own, whose header uses every kind of run: the format reads it as a text of 48 letters. */
module DynamicExample {
  import opened Bits
  import opened CanonicalCode
  import opened Deflate
  import opened DeflateEncoding
  import opened CodeLengthPacking
  import opened DynamicHeader
  import opened TableDecoding
  import TableExamples

  function Stream(): (r: seq<byte>)
    ensures |r| == 37
  {
    [
    0x15, 0xCA, 0x49, 0x11, 0x00, 0x30, 0x10, 0x02, 0x30, 0xAD, 0x1C, 0x0B, 0xF8, 0x57, 0xD0, 0x69, 0xDE, 0x19, 0x86,
    0xAB, 0x64, 0xD8, 0x4D, 0x76, 0xA8, 0x5C, 0x2C, 0xEE, 0xD2, 0x20, 0x83, 0x25, 0x1E, 0xC8, 0x3F, 0xFD, 0x00]
  }

  ghost function StreamBits(): seq<bool> {
    ByteBits(Stream())
  }

  /** The text: "hahaegccd", "addgffhe", "agcdgahfdg", "hfgfafha", "dccbeabb", then "ahae" once more, and "d". */
  const WORD0: seq<byte> := [104, 97, 104, 97, 101, 103, 99, 99, 100]
  const WORD1: seq<byte> := [97, 100, 100, 103, 102, 102, 104, 101]
  const WORD2: seq<byte> := [97, 103, 99, 100, 103, 97, 104, 102, 100, 103]
  const WORD3: seq<byte> := [104, 102, 103, 102, 97, 102, 104, 97]
  const WORD4: seq<byte> := [100, 99, 99, 98, 101, 97, 98, 98]
  function Text(): seq<byte> {
    [] + WORD0 + WORD1 + WORD2 + WORD3 + WORD4 + [97, 104, 97, 101] + [100]
  }

  // ----- numbers in the stream -----

  /** From pos on, n bits say v. */
  ghost predicate Next(s: seq<bool>, pos: nat, v: nat, n: nat) {
    At(s, pos, NatBits(v, n))
  }

  lemma {:induction false} ShlIs(v: nat, n: nat)
    ensures Shl(v, n) == Pow2(n) * v
  {
    if n > 0 {
      ShlIs(v, n - 1);
      assert Pow2(n) * v == 2 * (Pow2(n - 1) * v);
    }
  }

  /** A number that is r + p * q is there as r, in n bits, and then q. */
  lemma Split(s: seq<bool>, pos: nat, v: nat, n: nat, m: nat, p: nat, r: nat, q: nat)
    requires Next(s, pos, v, n + m) && p == Pow2(n) && r < p && v == r + p * q
    ensures Next(s, pos, r, n) && Next(s, pos + n, q, m) && pos + n <= |s|
  {
    hide NatBits, Shl, At;
    ShlIs(q, n);
    NatBitsAppend(r, n, q, m);
    AtAppend(s, pos, NatBits(r, n), NatBits(q, m));
    AtFits(s, pos, NatBits(r, n));
  }

  lemma AtFits(s: seq<bool>, pos: nat, bits: seq<bool>)
    requires At(s, pos, bits)
    ensures pos + |bits| <= |s|
  {
  }

  lemma TwoNumbers(a: nat, b: nat, n: nat)
    requires a < 256
    ensures NatBits(a + 256 * b, 8 + n) == NatBits(a, 8) + NatBits(b, n)
  {
    hide NatBits, Shl, Pow2;
    ShlIs(b, 8);
    Pow2Values();
    NatBitsAppend(a, 8, b, n);
  }

  lemma FourNumbers(a: byte, b: byte, c: byte, d: byte)
    ensures NatBits(a + 256 * (b + 256 * (c + 256 * d)), 32)
         == NatBits(a, 8) + (NatBits(b, 8) + (NatBits(c, 8) + NatBits(d, 8)))
  {
    hide NatBits;
    TwoNumbers(a, b + 256 * (c + 256 * d), 24);
    TwoNumbers(b, c + 256 * d, 16);
    TwoNumbers(c, d, 8);
  }

  lemma ByteHere(bytes: seq<byte>, i: nat)
    requires i < |bytes|
    ensures At(ByteBits(bytes), 8 * i, NatBits(bytes[i], 8))
  {
    hide NatBits, ByteBits;
    TableExamples.ByteBitAt(bytes, i);
  }

  /** The four bytes from byte i on. */
  lemma FourAt(s: seq<bool>, bytes: seq<byte>, i: nat, a: byte, b: byte, c: byte, d: byte)
    requires s == ByteBits(bytes) && i + 4 <= |bytes|
    requires bytes[i] == a && bytes[i + 1] == b && bytes[i + 2] == c && bytes[i + 3] == d
    ensures Next(s, 8 * i, a + 256 * (b + 256 * (c + 256 * d)), 32)
  {
    hide NatBits, ByteBits, At;
    ByteHere(bytes, i);
    ByteHere(bytes, i + 1);
    ByteHere(bytes, i + 2);
    ByteHere(bytes, i + 3);
    FourNumbers(a, b, c, d);
    AtAppend(s, 8 * i + 16, NatBits(c, 8), NatBits(d, 8));
    AtAppend(s, 8 * i + 8, NatBits(b, 8), NatBits(c, 8) + NatBits(d, 8));
    AtAppend(s, 8 * i, NatBits(a, 8), NatBits(b, 8) + (NatBits(c, 8) + NatBits(d, 8)));
  }

  // ----- the codes -----

  function ClLen(k: nat): nat {
    if k == 3 || k == 18 then 2 else if k == 1 || k == 5 then 3 else if k == 0 || k == 4 || 16 <= k <= 17 then 4 else 0
  }

  function LitLen(k: nat): nat {
    if k == 101 then 4 else if 97 <= k <= 104 then 3 else if k == 256 || k == 258 then 5 else 0
  }

  function DistLen(k: nat): nat {
    if k == 0 || k == 10 then 1 else 0
  }

  function ClLens(): (r: seq<nat>)
    ensures |r| == 19 && forall k: nat :: k < 19 ==> r[k] == ClLen(k)
  {
    seq(19, k requires 0 <= k < 19 => ClLen(k))
  }

  function LitLens(): (r: seq<nat>)
    ensures |r| == 259 && forall k: nat :: k < 259 ==> r[k] == LitLen(k)
  {
    seq(259, k requires 0 <= k < 259 => LitLen(k))
  }

  function DistLens(): (r: seq<nat>)
    ensures |r| == 11 && forall k: nat :: k < 11 ==> r[k] == DistLen(k)
  {
    seq(11, k requires 0 <= k < 11 => DistLen(k))
  }


  lemma CountNext(lens: seq<nat>, k: nat, l: nat)
    requires k < |lens|
    ensures Count(lens[..k + 1], l) == Count(lens[..k], l) + Bit(lens[k] == l)
  {
    assert lens[..k + 1][..k] == lens[..k];
  }

  /** How many of the first k code length symbols have length l. */
  function ClTally(k: nat, l: nat): nat {
    if l == 2 then Bit(k > 3) + Bit(k > 18)
    else if l == 3 then Bit(k > 1) + Bit(k > 5)
    else if l == 4 then Bit(k > 0) + Bit(k > 4) + Bit(k > 16) + Bit(k > 17)
    else 0
  }

  lemma {:induction false} ClCount(k: nat, l: nat)
    requires k <= 19 && 1 <= l
    ensures Count(ClLens()[..k], l) == ClTally(k, l)
  {
    if k > 0 {
      ClCount(k - 1, l);
      CountNext(ClLens(), k - 1, l);
      hide Count;
    } else {
      assert ClLens()[..0] == [];
    }
  }

  function LitTally(k: nat, l: nat): nat {
    if l == 3 then if k <= 97 then 0 else if k <= 101 then k - 97 else if k <= 105 then k - 98 else 7
    else if l == 4 then Bit(k > 101)
    else if l == 5 then Bit(k > 256) + Bit(k > 258)
    else 0
  }

  lemma {:induction false} LitCount(k: nat, l: nat)
    requires k <= 259 && 1 <= l
    ensures Count(LitLens()[..k], l) == LitTally(k, l)
  {
    if k > 0 {
      LitCount(k - 1, l);
      CountNext(LitLens(), k - 1, l);
      hide Count;
    } else {
      assert LitLens()[..0] == [];
    }
  }

  lemma {:induction false} DistCount(k: nat, l: nat)
    requires k <= 11 && 1 <= l
    ensures Count(DistLens()[..k], l) == if l == 1 then Bit(k > 0) + Bit(k > 10) else 0
  {
    if k > 0 {
      DistCount(k - 1, l);
      CountNext(DistLens(), k - 1, l);
      hide Count;
    } else {
      assert DistLens()[..0] == [];
    }
  }

  lemma Whole(lens: seq<nat>)
    ensures lens[..|lens|] == lens
  {
  }

  lemma Space(lens: seq<nat>, l: nat)
    requires 1 <= l <= 15
    ensures Below(lens, l + 1) == Below(lens, l) + Pow2(15 - l) * Count(lens, l)
  {
    BelowStep(lens, l + 1, Count(lens, l), Below(lens, l));
    ShlIs(Count(lens, l), 15 - l);
  }

  /** The code space up to length 5 decides if there are no longer codes. */
  lemma SpaceTaken(lens: seq<nat>, a: nat, b: nat, c: nat, d: nat, e: nat)
    requires Count(lens, 1) == a && Count(lens, 2) == b && Count(lens, 3) == c && Count(lens, 4) == d
    requires Count(lens, 5) == e && forall l: nat :: 6 <= l < 16 ==> Count(lens, l) == 0
    ensures Kraft(lens) == 16384 * a + 8192 * b + 4096 * c + 2048 * d + 1024 * e
    ensures NextCode(lens, 1) == 0 && NextCode(lens, 2) == 2 * a && NextCode(lens, 3) == 2 * (2 * a + b)
    ensures NextCode(lens, 4) == 2 * (NextCode(lens, 3) + c) && NextCode(lens, 5) == 2 * (NextCode(lens, 4) + d)
  {
    Space(lens, 1);
    Space(lens, 2);
    Space(lens, 3);
    Space(lens, 4);
    Space(lens, 5);
    BelowZero(lens, 6, 16);
    Powers();
    hide Count, Pow2;
  }

  lemma Powers()
    ensures Pow2(14) == 16384 && Pow2(13) == 8192 && Pow2(12) == 4096 && Pow2(11) == 2048 && Pow2(10) == 1024
  {
    Pow2Values();
  }

  lemma ClCounts(l: nat)
    requires 1 <= l
    ensures Count(ClLens(), l) == ClTally(19, l)
  {
    Whole(ClLens());
    ClCount(19, l);
  }

  lemma ClSmall()
    ensures LengthsOk(ClLens())
  {
  }

  lemma ClSpace()
    ensures Feasible(ClLens()) && CodeOk(ClLens())
    ensures NextCode(ClLens(), 2) == 0 && NextCode(ClLens(), 3) == 4 && NextCode(ClLens(), 4) == 12
  {
    ClSmall();
    forall l: nat | 1 <= l ensures Count(ClLens(), l) == ClTally(19, l) {
      ClCounts(l);
    }
    hide Count, Kraft, NextCode, LengthsOk, ClLens;
    SpaceTaken(ClLens(), 0, 2, 2, 4, 0);
  }

  lemma LitCounts(l: nat)
    requires 1 <= l
    ensures Count(LitLens(), l) == LitTally(259, l)
  {
    Whole(LitLens());
    LitCount(259, l);
  }

  lemma LitSmall()
    ensures LengthsOk(LitLens())
  {
  }

  lemma LitSpace()
    ensures Feasible(LitLens()) && CodeOk(LitLens())
    ensures NextCode(LitLens(), 3) == 0 && NextCode(LitLens(), 4) == 14 && NextCode(LitLens(), 5) == 30
  {
    LitSmall();
    forall l: nat | 1 <= l ensures Count(LitLens(), l) == LitTally(259, l) {
      LitCounts(l);
    }
    hide Count, Kraft, NextCode, LengthsOk, LitLens;
    SpaceTaken(LitLens(), 0, 0, 7, 1, 2);
  }

  lemma DistCounts(l: nat)
    requires 1 <= l
    ensures Count(DistLens(), l) == if l == 1 then 2 else 0
  {
    Whole(DistLens());
    DistCount(11, l);
  }

  lemma DistSmall()
    ensures LengthsOk(DistLens())
  {
  }

  lemma DistSpace()
    ensures Feasible(DistLens()) && CodeOk(DistLens()) && NextCode(DistLens(), 1) == 0
  {
    DistSmall();
    forall l: nat | 1 <= l ensures Count(DistLens(), l) == if l == 1 then 2 else 0 {
      DistCounts(l);
    }
    hide Count, Kraft, NextCode, LengthsOk, DistLens;
    SpaceTaken(DistLens(), 2, 0, 0, 0, 0);
  }

  /** The code of symbol sym has n bits, and says r, first bit least. */
  ghost predicate Coded(lens: seq<nat>, sym: nat, n: nat, r: nat) {
    Feasible(lens) && Used(lens, sym) && lens[sym] == n && CodeBits(lens, sym) == NatBits(r, n)
  }

  /** Short codes in the order of the stream. */
  lemma Reversed()
    ensures MsbBits(0, 1) == NatBits(0, 1) && MsbBits(1, 1) == NatBits(1, 1)
    ensures MsbBits(0, 2) == NatBits(0, 2) && MsbBits(1, 2) == NatBits(2, 2)
  {
  }

  lemma ReversedThree()
    ensures MsbBits(0, 3) == NatBits(0, 3) && MsbBits(1, 3) == NatBits(4, 3) && MsbBits(2, 3) == NatBits(2, 3)
    ensures MsbBits(3, 3) == NatBits(6, 3) && MsbBits(4, 3) == NatBits(1, 3) && MsbBits(5, 3) == NatBits(5, 3)
    ensures MsbBits(6, 3) == NatBits(3, 3) && MsbBits(7, 3) == NatBits(7, 3)
  {
  }

  lemma LongerCode(c: nat, n: nat, r: nat, b: nat)
    requires MsbBits(c, n) == NatBits(r, n) && b < 2 && r < Pow2(n)
    ensures MsbBits(2 * c + b, n + 1) == NatBits(r + Shl(b, n), n + 1)
  {
    NatBitsAppend(r, n, b, 1);
    assert NatBits(b, 1) == [b == 1];
  }

  lemma ReversedLonger()
    ensures MsbBits(12, 4) == NatBits(3, 4) && MsbBits(13, 4) == NatBits(11, 4) && MsbBits(14, 4) == NatBits(7, 4)
    ensures MsbBits(15, 4) == NatBits(15, 4)
    ensures MsbBits(30, 5) == NatBits(15, 5) && MsbBits(31, 5) == NatBits(31, 5)
  {
    ReversedThree();
    ShlIs(1, 3);
    ShlIs(0, 3);
    ShlIs(1, 4);
    ShlIs(0, 4);
    Pow2Values();
    hide MsbBits, NatBits, Shl, Pow2;
    LongerCode(6, 3, 3, 0);
    LongerCode(6, 3, 3, 1);
    LongerCode(7, 3, 7, 0);
    LongerCode(7, 3, 7, 1);
    LongerCode(15, 4, 15, 0);
    LongerCode(15, 4, 15, 1);
  }

  lemma ClCodes()
    ensures Coded(ClLens(), 3, 2, 0) && Coded(ClLens(), 18, 2, 2) && Coded(ClLens(), 1, 3, 1)
    ensures Coded(ClLens(), 5, 3, 5)
    ensures Coded(ClLens(), 0, 4, 3) && Coded(ClLens(), 4, 4, 11) && Coded(ClLens(), 16, 4, 7)
    ensures Coded(ClLens(), 17, 4, 15)
  {
    hide NatBits, MsbBits, Count, Kraft, NextCode;
    ClSpace();
    Reversed();
    ReversedThree();
    ReversedLonger();
    ClCount(3, 2);
    ClCount(18, 2);
    ClCount(1, 3);
    ClCount(5, 3);
    ClCount(0, 4);
    ClCount(4, 4);
    ClCount(16, 4);
    ClCount(17, 4);
  }

  /** The letters' codes. */
  function Reverse(c: nat): nat {
    match c
    case 97 => 0
    case 98 => 4
    case 99 => 2
    case 100 => 6
    case 101 => 7
    case 102 => 1
    case 103 => 5
    case _ => 3
  }

  lemma LetterCode(c: nat)
    requires 97 <= c <= 104
    ensures Coded(LitLens(), c, if c == 101 then 4 else 3, Reverse(c))
  {
    hide NatBits, MsbBits, Count, Kraft, NextCode;
    LitSpace();
    ReversedThree();
    ReversedLonger();
    LitCount(c, LitLen(c));
  }

  lemma OtherCodes()
    ensures Coded(LitLens(), 256, 5, 15) && Coded(LitLens(), 258, 5, 31) && Coded(DistLens(), 10, 1, 1)
  {
    hide NatBits, MsbBits, Count, Kraft, NextCode;
    LitSpace();
    DistSpace();
    Reversed();
    ReversedLonger();
    LitCount(256, 5);
    LitCount(258, 5);
    DistCount(10, 1);
  }

  // ----- the header -----

  /** A symbol is read where its code is. */
  lemma Look(lens: seq<nat>, sym: nat, s: seq<bool>, pos: nat, n: nat, r: nat)
    requires Coded(lens, sym, n, r) && Next(s, pos, r, n)
    ensures Symbol(lens, s, pos) == Some(sym)
  {
    hide CodeBits, NatBits, Feasible, Symbol, At;
    SymbolIs(lens, sym, s, pos);
  }

  lemma Says(s: seq<bool>, pos: nat, n: nat, r: nat)
    requires Next(s, pos, r, n) && r < Pow2(n)
    ensures Field(s, pos, n) == Some(r)
  {
    hide NatBits, At, Low, Field;
    FieldOf(s, pos, r, n);
    LowSmall(r, n);
  }

  /** Both codes' lengths, one after the other. */
  function Len(k: nat): nat {
    if k < 259 then LitLen(k) else DistLen(k - 259)
  }

  function AllLens(): (r: seq<nat>)
    ensures |r| == 270 && forall k: nat :: k < 270 ==> r[k] == Len(k)
  {
    seq(270, k requires 0 <= k < 270 => Len(k))
  }


  /** Read from pos on, with the first k lengths known, the header ends at bit 139 with all of them. */
  ghost predicate Gets(s: seq<bool>, pos: nat, k: nat)
    requires k <= 270
  {
    Lengths(ClLens(), 270, s, pos, AllLens()[..k]) == Some((AllLens(), 139))
  }

  /** One length; what follows is q. */
  lemma OneLength(s: seq<bool>, pos: nat, v: nat, n: nat, m: nat, r: nat, q: nat, p: nat, k: nat)
    requires k < 270 && Len(k) < 16 && Coded(ClLens(), Len(k), n, r) && p == Pow2(n)
    requires Next(s, pos, v, n + m) && r < p && v == r + p * q
    ensures Gets(s, pos + n, k + 1) ==> Gets(s, pos, k)
    ensures Next(s, pos + n, q, m)
  {
    hide CodeBits, Feasible, Next, Symbol, Lengths, Pow2;
    Split(s, pos, v, n, m, p, r, q);
    Look(ClLens(), Len(k), s, pos, n, r);
    LengthsOne(ClLens(), 270, s, pos, AllLens()[..k], Len(k));
    assert AllLens()[..k] + [Len(k)] == AllLens()[..k + 1];
  }

  /** A run of c lengths, by the symbol sym and e extra bits that say x. */
  lemma OneRun(s: seq<bool>, pos: nat, sym: nat, n: nat, r: nat, e: nat, x: nat, k: nat, c: nat)
    requires 16 <= sym <= 18 && Coded(ClLens(), sym, n, r) && Next(s, pos, r, n) && k + c <= 270
    requires Next(s, pos + n, x, e) && x < Pow2(e) && 0 < c
    requires match sym case 16 => e == 2 && c == 3 + x case 17 => e == 3 && c == 3 + x case _ => e == 7 && c == 11 + x
    requires forall j :: k <= j < k + c ==> Len(j) == if sym == 16 then Len(k) else 0
    requires sym == 16 ==> k > 0 && Len(k - 1) == Len(k)
    ensures Gets(s, pos + n + e, k + c) ==> Gets(s, pos, k)
  {
    hide CodeBits, Feasible, Next, Symbol, Lengths, Pow2, Field, Three, Bit, Repeat;
    Look(ClLens(), sym, s, pos, n, r);
    Says(s, pos + n, e, x);
    var p, lens := pos + n, AllLens()[..k];
    if sym == 16 {
      FieldTwo(s, p);
      RunOfLast(ClLens(), 270, s, pos, lens);
    } else if sym == 17 {
      FieldThree(s, p);
      RunOfZeros(ClLens(), 270, s, pos, lens);
    } else {
      FieldSeven(s, p);
      LongRunOfZeros(ClLens(), 270, s, pos, lens);
    }
    assert lens + Repeat(if sym == 16 then Len(k) else 0, c) == AllLens()[..k + c];
  }

  // ----- the header, step by step -----

  lemma Counts(s: seq<bool>)
    requires s == StreamBits()
    ensures Next(s, 0, 1, 1) && Next(s, 1, 2, 2) && At(s, 3, CountBits(259, 11, 18))
  {
    hide Next, NatBits, At, ByteBits;
    Pow2Values();
    FourAt(s, Stream(), 0, 0x15, 0xCA, 0x49, 0x11);
    Split(s, 0, 0x1149CA15, 1, 31, 2, 1, 0x8A4E50A);
    Split(s, 1, 0x8A4E50A, 2, 29, 4, 2, 0x2293942);
    Split(s, 3, 0x2293942, 5, 24, 32, 2, 0x1149CA);
    Split(s, 8, 0x1149CA, 5, 19, 32, 0xA, 0x8A4E);
    Split(s, 13, 0x8A4E, 4, 15, 16, 0xE, 0x8A4);
    CountsAppend(s);
  }

  lemma CountsAppend(s: seq<bool>)
    requires Next(s, 3, 2, 5) && Next(s, 8, 10, 5) && Next(s, 13, 14, 4)
    ensures At(s, 3, CountBits(259, 11, 18))
  {
    hide NatBits, At;
    AtAppend(s, 3, NatBits(2, 5), NatBits(10, 5));
    AtAppend(s, 3, NatBits(2, 5) + NatBits(10, 5), NatBits(14, 4));
  }

  /** One code length code length. */
  lemma ClNext(s: seq<bool>, i: nat, v: nat, m: nat, r: nat, q: nat)
    requires i < 18 && Next(s, 17 + 3 * i, v, 3 + m) && v == r + 8 * q && r < 8 && ClLens()[Order(i)] == r
    requires At(s, 17, ClBits(ClLens(), i))
    ensures At(s, 17, ClBits(ClLens(), i + 1)) && Next(s, 17 + 3 * (i + 1), q, m)
  {
    hide NatBits, At, Pow2, ClLens;
    Pow2Values();
    Split(s, 17 + 3 * i, v, 3, m, 8, r, q);
    AtAppend(s, 17, ClBits(ClLens(), i), NatBits(r, 3));
  }

  lemma Orders()
    ensures forall i: nat :: i < 18 ==> ClLens()[Order(i)] == [4, 4, 2, 4, 0, 0, 0, 0, 0, 3, 0, 4, 0, 2, 0, 0, 0, 3][i]
  {
  }

  lemma NoLengths(s: seq<bool>)
    requires 17 <= |s|
    ensures At(s, 17, ClBits(ClLens(), 0))
  {
    assert s[17..17] == [];
  }

  lemma FirstClLengths(s: seq<bool>)
    requires s == StreamBits()
    ensures At(s, 17, ClBits(ClLens(), 10))
  {
    hide Next, NatBits, At, ByteBits, ClBits, ClLens, Order;
    Orders();
    Pow2Values();
    NoLengths(s);
    FourAt(s, Stream(), 2, 0x49, 0x11, 0x00, 0x30);
    Split(s, 16, 0x30001149, 1, 31, 2, 1, 0x180008A4);
    ClNext(s, 0, 0x180008A4, 28, 4, 0x3000114);
    ClNext(s, 1, 0x3000114, 25, 4, 0x600022);
    ClNext(s, 2, 0x600022, 22, 2, 0xC0004);
    ClNext(s, 3, 0xC0004, 19, 4, 0x18000);
    ClNext(s, 4, 0x18000, 16, 0, 0x3000);
    ClNext(s, 5, 0x3000, 13, 0, 0x600);
    ClNext(s, 6, 0x600, 10, 0, 0xC0);
    ClNext(s, 7, 0xC0, 7, 0, 0x18);
    ClNext(s, 8, 0x18, 4, 0, 3);
    ClNext(s, 9, 3, 1, 3, 0);
  }

  lemma LastClLengths(s: seq<bool>)
    requires s == StreamBits() && At(s, 17, ClBits(ClLens(), 10))
    ensures At(s, 17, ClBits(ClLens(), 18))
  {
    hide Next, NatBits, At, ByteBits, ClBits, ClLens, Order;
    Orders();
    Pow2Values();
    FourAt(s, Stream(), 5, 0x30, 0x10, 0x02, 0x30);
    Split(s, 40, 0x30021030, 7, 25, 128, 0x30, 0x600420);
    ClNext(s, 10, 0x600420, 22, 0, 0xC0084);
    ClNext(s, 11, 0xC0084, 19, 4, 0x18010);
    ClNext(s, 12, 0x18010, 16, 0, 0x3002);
    ClNext(s, 13, 0x3002, 13, 2, 0x600);
    ClNext(s, 14, 0x600, 10, 0, 0xC0);
    ClNext(s, 15, 0xC0, 7, 0, 0x18);
    ClNext(s, 16, 0x18, 4, 0, 3);
    ClNext(s, 17, 3, 1, 3, 0);
  }

  lemma FirstLengths(s: seq<bool>)
    requires s == StreamBits() && Gets(s, 96, 104)
    ensures Gets(s, 71, 0)
  {
    hide Next, NatBits, At, ByteBits, Gets, ClLens, Coded, Pow2;
    ClCodes();
    Powers();
    Pow2Values();
    FourAt(s, Stream(), 8, 0x30, 0xAD, 0x1C, 0x0B);
    Split(s, 64, 0xB1CAD30, 7, 25, 128, 0x30, 0x16395A);
    Split(s, 71, 0x16395A, 2, 23, 4, 2, 0x58E56);
    Split(s, 73, 0x58E56, 7, 16, 128, 0x56, 0xB1C);
    OneRun(s, 71, 18, 2, 2, 7, 86, 0, 97);
    OneLength(s, 80, 0xB1C, 2, 14, 0, 0x2C7, 4, 97);
    Split(s, 82, 0x2C7, 4, 10, 16, 7, 0x2C);
    Split(s, 86, 0x2C, 2, 8, 4, 0, 0xB);
    OneRun(s, 82, 16, 4, 7, 2, 0, 98, 3);
    OneLength(s, 88, 0xB, 4, 4, 11, 0, 16, 101);
    OneLength(s, 92, 0, 2, 2, 0, 0, 4, 102);
    OneLength(s, 94, 0, 2, 0, 0, 0, 4, 103);
  }

  lemma MiddleLengths(s: seq<bool>)
    requires s == StreamBits() && Gets(s, 126, 259)
    ensures Gets(s, 96, 104)
  {
    hide Next, NatBits, At, ByteBits, Gets, ClLens, Coded, Pow2;
    ClCodes();
    Powers();
    Pow2Values();
    FourAt(s, Stream(), 12, 0xF8, 0x57, 0xD0, 0x69);
    OneLength(s, 96, 0x69D057F8, 2, 30, 0, 0x1A7415FE, 4, 104);
    Split(s, 98, 0x1A7415FE, 2, 28, 4, 2, 0x69D057F);
    Split(s, 100, 0x69D057F, 7, 21, 128, 0x7F, 0xD3A0A);
    OneRun(s, 98, 18, 2, 2, 7, 127, 105, 138);
    Split(s, 107, 0xD3A0A, 2, 19, 4, 2, 0x34E82);
    Split(s, 109, 0x34E82, 7, 12, 128, 2, 0x69D);
    OneRun(s, 107, 18, 2, 2, 7, 2, 243, 13);
    OneLength(s, 116, 0x69D, 3, 9, 5, 0xD3, 8, 256);
    OneLength(s, 119, 0xD3, 4, 5, 3, 0xD, 16, 257);
    OneLength(s, 123, 0xD, 3, 2, 5, 1, 8, 258);
  }

  lemma LastLengths(s: seq<bool>)
    requires s == StreamBits() && Gets(s, 139, 270)
    ensures Gets(s, 126, 259)
  {
    hide Next, NatBits, At, ByteBits, Gets, ClLens, Coded, Pow2;
    ClCodes();
    Powers();
    Pow2Values();
    FourAt(s, Stream(), 15, 0x69, 0xDE, 0x19, 0x86);
    Split(s, 120, 0x8619DE69, 6, 26, 64, 0x29, 0x2186779);
    OneLength(s, 126, 0x2186779, 3, 23, 1, 0x430CEF, 8, 259);
    Split(s, 129, 0x430CEF, 4, 19, 16, 0xF, 0x430CE);
    Split(s, 133, 0x430CE, 3, 16, 8, 6, 0x8619);
    OneRun(s, 129, 17, 4, 15, 3, 6, 260, 9);
    OneLength(s, 136, 0x8619, 3, 13, 1, 0x10C3, 8, 269);
  }

  lemma AllTogether()
    ensures AllLens() == LitLens() + DistLens()
  {
  }

  lemma LengthsEnd(s: seq<bool>)
    ensures Gets(s, 139, 270)
  {
    assert AllLens()[..270] == AllLens();
    hide AllLens;
  }

  lemma LengthsStart(s: seq<bool>)
    requires Gets(s, 71, 0)
    ensures LengthsAre(ClLens(), |LitLens() + DistLens()|, s, 71, LitLens() + DistLens(), 139)
  {
    AllTogether();
    hide Lengths, LitLens, DistLens, ClLens;
    assert AllLens()[..0] == [];
  }

  lemma SmallLengths()
    ensures forall s :: 0 <= s < 19 ==> ClLens()[s] < 8 && (18 <= Place(s) ==> ClLens()[s] == 0)
  {
  }

  /** The header gives the two codes, and ends at bit 139. */
  lemma Header(s: seq<bool>)
    requires s == StreamBits()
    ensures HeaderGives(s, 3, LitLens(), DistLens(), 139)
  {
    Counts(s);
    FirstClLengths(s);
    LastClLengths(s);
    LengthsEnd(s);
    LastLengths(s);
    MiddleLengths(s);
    FirstLengths(s);
    LengthsStart(s);
    ClSpace();
    LitSpace();
    DistSpace();
    SmallLengths();
    hide *;
    CountsRoundTrip(259, 11, 18, s, 3);
    ClRead(ClLens(), 18, s, 17);
    HeaderParts(s, 3, LitLens(), DistLens(), 18, ClLens(), 139);
  }

  // ----- the text -----

  /** Decoding letters: those before k of the word w are out. */
  ghost predicate Reads(s: seq<bool>, pos: nat, out: seq<byte>) {
    Body(LitLens(), DistLens(), s, pos, out) == Some(Progress(Text(), 289))
  }

  lemma BodyPuts(s: seq<bool>, pos: nat, out: seq<byte>, c: byte)
    requires Symbol(LitLens(), s, pos) == Some(c)
    ensures Reads(s, pos + LitLens()[c], out + [c]) ==> Reads(s, pos, out)
  {
    hide Symbol, LitLens, DistLens;
  }

  /** Letter k of the word w, whose code is r in n bits; what follows is q. */
  lemma Letter(s: seq<bool>, pos: nat, v: nat, n: nat, m: nat, q: nat, out: seq<byte>, w: seq<byte>, k: nat)
    requires Next(s, pos, v, n + m) && k < |w| && 97 <= w[k] <= 104 && n == (if w[k] == 101 then 4 else 3)
    requires v == Reverse(w[k]) + (if n == 4 then 16 else 8) * q
    ensures Reads(s, pos + n, out + w[..k + 1]) ==> Reads(s, pos, out + w[..k])
    ensures Next(s, pos + n, q, m)
  {
    hide CodeBits, Feasible, Next, Symbol, Pow2, LitLens, Reads;
    Pow2Values();
    LetterCode(w[k]);
    Split(s, pos, v, n, m, if n == 4 then 16 else 8, Reverse(w[k]), q);
    Look(LitLens(), w[k], s, pos, n, Reverse(w[k]));
    BodyPuts(s, pos, out + w[..k], w[k]);
    assert out + w[..k] + [w[k]] == out + w[..k + 1];
  }

  lemma WordEnds(s: seq<bool>, p: nat, q: nat, out: seq<byte>, w: seq<byte>)
    requires Reads(s, q, out + w[..|w|]) ==> Reads(s, p, out + w[..0])
    ensures Reads(s, q, out + w) ==> Reads(s, p, out)
  {
    hide Reads;
    assert w[..|w|] == w && out + w[..0] == out;
  }

  lemma Word0(s: seq<bool>, out: seq<byte>)
    requires s == StreamBits()
    ensures Reads(s, 167, out + WORD0) ==> Reads(s, 139, out)
  {
    hide Next, NatBits, At, ByteBits, Reads, Pow2;
    Pow2Values();
    FourAt(s, Stream(), 17, 0x19, 0x86, 0xAB, 0x64);
    Split(s, 136, 0x64AB8619, 3, 29, 8, 1, 0xC9570C3);
    Letter(s, 139, 0xC9570C3, 3, 26, 0x192AE18, out, WORD0, 0);
    Letter(s, 142, 0x192AE18, 3, 23, 0x3255C3, out, WORD0, 1);
    Letter(s, 145, 0x3255C3, 3, 20, 0x64AB8, out, WORD0, 2);
    Letter(s, 148, 0x64AB8, 3, 17, 0xC957, out, WORD0, 3);
    Letter(s, 151, 0xC957, 4, 13, 0xC95, out, WORD0, 4);
    Letter(s, 155, 0xC95, 3, 10, 0x192, out, WORD0, 5);
    Letter(s, 158, 0x192, 3, 7, 0x32, out, WORD0, 6);
    Letter(s, 161, 0x32, 3, 4, 6, out, WORD0, 7);
    Letter(s, 164, 6, 3, 1, 0, out, WORD0, 8);
    WordEnds(s, 139, 167, out, WORD0);
  }

  lemma Word1(s: seq<bool>, out: seq<byte>)
    requires s == StreamBits()
    ensures Reads(s, 192, out + WORD1) ==> Reads(s, 167, out)
  {
    hide Next, NatBits, At, ByteBits, Reads, Pow2;
    Pow2Values();
    FourAt(s, Stream(), 20, 0x64, 0xD8, 0x4D, 0x76);
    Split(s, 160, 0x764DD864, 7, 25, 128, 0x64, 0xEC9BB0);
    Letter(s, 167, 0xEC9BB0, 3, 22, 0x1D9376, out, WORD1, 0);
    Letter(s, 170, 0x1D9376, 3, 19, 0x3B26E, out, WORD1, 1);
    Letter(s, 173, 0x3B26E, 3, 16, 0x764D, out, WORD1, 2);
    Letter(s, 176, 0x764D, 3, 13, 0xEC9, out, WORD1, 3);
    Letter(s, 179, 0xEC9, 3, 10, 0x1D9, out, WORD1, 4);
    Letter(s, 182, 0x1D9, 3, 7, 0x3B, out, WORD1, 5);
    Letter(s, 185, 0x3B, 3, 4, 7, out, WORD1, 6);
    Letter(s, 188, 7, 4, 0, 0, out, WORD1, 7);
    WordEnds(s, 167, 192, out, WORD1);
  }

  lemma Word2(s: seq<bool>, out: seq<byte>)
    requires s == StreamBits()
    ensures Reads(s, 222, out + WORD2) ==> Reads(s, 192, out)
  {
    hide Next, NatBits, At, ByteBits, Reads, Pow2;
    Pow2Values();
    FourAt(s, Stream(), 24, 0xA8, 0x5C, 0x2C, 0xEE);
    Letter(s, 192, 0xEE2C5CA8, 3, 29, 0x1DC58B95, out, WORD2, 0);
    Letter(s, 195, 0x1DC58B95, 3, 26, 0x3B8B172, out, WORD2, 1);
    Letter(s, 198, 0x3B8B172, 3, 23, 0x77162E, out, WORD2, 2);
    Letter(s, 201, 0x77162E, 3, 20, 0xEE2C5, out, WORD2, 3);
    Letter(s, 204, 0xEE2C5, 3, 17, 0x1DC58, out, WORD2, 4);
    Letter(s, 207, 0x1DC58, 3, 14, 0x3B8B, out, WORD2, 5);
    Letter(s, 210, 0x3B8B, 3, 11, 0x771, out, WORD2, 6);
    Letter(s, 213, 0x771, 3, 8, 0xEE, out, WORD2, 7);
    Letter(s, 216, 0xEE, 3, 5, 0x1D, out, WORD2, 8);
    Letter(s, 219, 0x1D, 3, 2, 3, out, WORD2, 9);
    WordEnds(s, 192, 222, out, WORD2);
  }

  lemma Word3(s: seq<bool>, out: seq<byte>)
    requires s == StreamBits()
    ensures Reads(s, 246, out + WORD3) ==> Reads(s, 222, out)
  {
    hide Next, NatBits, At, ByteBits, Reads, Pow2;
    Pow2Values();
    FourAt(s, Stream(), 27, 0xEE, 0xD2, 0x20, 0x83);
    Split(s, 216, 0x8320D2EE, 6, 26, 64, 0x2E, 0x20C834B);
    Letter(s, 222, 0x20C834B, 3, 23, 0x419069, out, WORD3, 0);
    Letter(s, 225, 0x419069, 3, 20, 0x8320D, out, WORD3, 1);
    Letter(s, 228, 0x8320D, 3, 17, 0x10641, out, WORD3, 2);
    Letter(s, 231, 0x10641, 3, 14, 0x20C8, out, WORD3, 3);
    Letter(s, 234, 0x20C8, 3, 11, 0x419, out, WORD3, 4);
    Letter(s, 237, 0x419, 3, 8, 0x83, out, WORD3, 5);
    Letter(s, 240, 0x83, 3, 5, 0x10, out, WORD3, 6);
    Letter(s, 243, 0x10, 3, 2, 2, out, WORD3, 7);
    WordEnds(s, 222, 246, out, WORD3);
  }

  lemma Word4(s: seq<bool>, out: seq<byte>)
    requires s == StreamBits()
    ensures Reads(s, 271, out + WORD4) ==> Reads(s, 246, out)
  {
    hide Next, NatBits, At, ByteBits, Reads, Pow2;
    Pow2Values();
    FourAt(s, Stream(), 30, 0x83, 0x25, 0x1E, 0xC8);
    Split(s, 240, 0xC81E2583, 6, 26, 64, 3, 0x3207896);
    Letter(s, 246, 0x3207896, 3, 23, 0x640F12, out, WORD4, 0);
    Letter(s, 249, 0x640F12, 3, 20, 0xC81E2, out, WORD4, 1);
    Letter(s, 252, 0xC81E2, 3, 17, 0x1903C, out, WORD4, 2);
    Letter(s, 255, 0x1903C, 3, 14, 0x3207, out, WORD4, 3);
    Letter(s, 258, 0x3207, 4, 10, 0x320, out, WORD4, 4);
    Letter(s, 262, 0x320, 3, 7, 0x64, out, WORD4, 5);
    Letter(s, 265, 0x64, 3, 4, 0xC, out, WORD4, 6);
    Letter(s, 268, 0xC, 3, 1, 1, out, WORD4, 7);
    WordEnds(s, 246, 271, out, WORD4);
  }

  // ----- its end -----

  lemma CopyOne(out: seq<byte>, w: seq<byte>, n: nat, k: nat, dist: nat)
    requires n + dist == |out| && k < |w| <= dist && n + |w| <= |out| && out[n..n + |w|] == w
    ensures |out + w[..k]| == |out| + k
    ensures Copy(out + w[..k], |w| - k, dist) == Copy(out + w[..k + 1], |w| - (k + 1), dist)
  {
    assert (out + w[..k])[n + k] == out[n..n + |w|][k] == w[k];
    assert out + w[..k] + [w[k]] == out + w[..k + 1];
  }

  /** Copying from further back than the length appends what is there. */
  lemma {:induction false} Copies(out: seq<byte>, w: seq<byte>, n: nat, k: nat, dist: nat)
    requires n + dist == |out| && k <= |w| <= dist && n + |w| <= |out| && out[n..n + |w|] == w && 0 < dist
    ensures Copy(out + w[..k], |w| - k, dist) == out + w
    decreases |w| - k
  {
    if k < |w| {
      CopyOne(out, w, n, k, dist);
      hide Copy;
      Copies(out, w, n, k + 1, dist);
    } else {
      assert w[..k] == w;
    }
  }

  lemma Bases()
    ensures LengthBase(258) == 4 && LengthExtra(258) == 0 && DistBase(10) == 33 && DistExtraBits(10) == 4
  {
  }

  lemma NoExtra(s: seq<bool>, pos: nat)
    requires pos <= |s|
    ensures Field(s, pos, 0) == Some(0)
  {
  }

  lemma MatchSymbols(s: seq<bool>)
    requires Next(s, 271, 31, 5) && Next(s, 276, 1, 1)
    ensures Symbol(LitLens(), s, 271) == Some(258) && Symbol(DistLens(), s, 276) == Some(10) && 276 <= |s|
  {
    OtherCodes();
    NextFits(s, 276, 1, 1);
    hide *;
    Look(LitLens(), 258, s, 271, 5, 31);
    Look(DistLens(), 10, s, 276, 1, 1);
  }

  /** A match of length 4, whose distance is symbol 10 with the extra bits 9: 33 + 9 back. */
  lemma MatchHere(s: seq<bool>)
    requires Symbol(DistLens(), s, 276) == Some(10) && 276 <= |s| && Field(s, 277, 4) == Some(9)
    ensures MatchAt(DistLens(), 258, s, 276) == Some((Match(4, 42), 281))
  {
    Bases();
    NoExtra(s, 276);
    assert DistLens()[10] == 1;
    hide Field, Symbol, DistLens, LengthBase, DistBase, LengthExtra, DistExtraBits;
    MatchReads(DistLens(), 258, 10, s, 276, 4, 276, 42, 281);
  }

  lemma NextFits(s: seq<bool>, pos: nat, v: nat, n: nat)
    requires Next(s, pos, v, n)
    ensures pos + n <= |s|
  {
  }

  lemma BodyCopies(s: seq<bool>, out: seq<byte>, w: seq<byte>)
    requires Symbol(LitLens(), s, 271) == Some(258)
    requires MatchAt(DistLens(), 258, s, 276) == Some((Match(4, 42), 281))
    requires |out| >= 42 && Copy(out, 4, 42) == out + w
    ensures Reads(s, 281, out + w) ==> Reads(s, 271, out)
  {
    hide Symbol, MatchAt, Copy, DistLens;
  }

  lemma BodyEnds(s: seq<bool>)
    requires Symbol(LitLens(), s, 284) == Some(256)
    ensures Reads(s, 284, Text())
  {
    hide Symbol, DistLens;
  }

  lemma LastTokens(s: seq<bool>)
    requires s == StreamBits()
    ensures Next(s, 271, 31, 5) && Next(s, 276, 1, 1) && Next(s, 277, 9, 4) && Next(s, 281, 6, 3) && Next(s, 284, 15, 5)
  {
    hide Next, NatBits, At, ByteBits, Pow2;
    Powers();
    Pow2Values();
    FourAt(s, Stream(), 33, 0xC8, 0x3F, 0xFD, 0x00);
    Split(s, 264, 0xFD3FC8, 7, 25, 128, 0x48, 0x1FA7F);
    Split(s, 271, 0x1FA7F, 5, 20, 32, 0x1F, 0xFD3);
    Split(s, 276, 0xFD3, 1, 19, 2, 1, 0x7E9);
    Split(s, 277, 0x7E9, 4, 15, 16, 9, 0x7E);
    Split(s, 281, 0x7E, 3, 12, 8, 6, 0xF);
    Split(s, 284, 0xF, 5, 7, 32, 0xF, 0);
  }

  /** What the match copies. */
  lemma FirstFour(out: seq<byte>)
    requires out == [] + WORD0 + WORD1 + WORD2 + WORD3 + WORD4
    ensures |out| == 43 && out[1..1 + 4] == [97, 104, 97, 101]
    ensures Text() == out + [97, 104, 97, 101] + [100]
  {
    assert out[1..5] == WORD0[1..5];
  }

  lemma Ending(s: seq<bool>, out: seq<byte>)
    requires s == StreamBits() && out == [] + WORD0 + WORD1 + WORD2 + WORD3 + WORD4
    ensures Reads(s, 271, out)
  {
    FirstFour(out);
    EndingAfter(s, out, [97, 104, 97, 101]);
  }

  lemma EndingAfter(s: seq<bool>, out: seq<byte>, w: seq<byte>)
    requires s == StreamBits() && |out| == 43 && |w| == 4 && out[1..1 + 4] == w && Text() == out + w + [100]
    ensures Reads(s, 271, out)
  {
    hide *;
    LastTokens(s);
    MatchSymbols(s);
    NineSays(s);
    MatchHere(s);
    LastSymbols(s);
    BodyEnds(s);
    BodyPuts(s, 281, out + w, 100);
    assert out + w[..0] == out;
    Copies(out, w, 1, 0, 42);
    BodyCopies(s, out, w);
  }

  lemma NineSays(s: seq<bool>)
    requires Next(s, 277, 9, 4)
    ensures Field(s, 277, 4) == Some(9)
  {
    Pow2Values();
    hide Next, Field, Pow2;
    Says(s, 277, 4, 9);
  }

  lemma LastSymbols(s: seq<bool>)
    requires Next(s, 281, 6, 3) && Next(s, 284, 15, 5)
    ensures Symbol(LitLens(), s, 281) == Some(100) && Symbol(LitLens(), s, 284) == Some(256) && LitLens()[100] == 3
  {
    OtherCodes();
    LetterCode(100);
    hide Next, Symbol, Feasible, CodeBits, NatBits, LitLens;
    Look(LitLens(), 256, s, 284, 5, 15);
    Look(LitLens(), 100, s, 281, 3, 6);
  }

  lemma FortyEight(s: seq<bool>)
    requires s == StreamBits()
    ensures Body(LitLens(), DistLens(), s, 139, []) == Some(Progress(Text(), 289))
  {
    hide Reads, StreamBits;
    Ending(s, [] + WORD0 + WORD1 + WORD2 + WORD3 + WORD4);
    Word4(s, [] + WORD0 + WORD1 + WORD2 + WORD3);
    Word3(s, [] + WORD0 + WORD1 + WORD2);
    Word2(s, [] + WORD0 + WORD1);
    Word1(s, [] + WORD0);
    Word0(s, []);
    ReadsMeans(s);
  }

  lemma ReadsMeans(s: seq<bool>)
    ensures Reads(s, 139, []) ==> Body(LitLens(), DistLens(), s, 139, []) == Some(Progress(Text(), 289))
  {
    hide Body;
  }

  lemma BlockReads(s: seq<bool>)
    requires HeaderGives(s, 3, LitLens(), DistLens(), 139)
    requires Body(LitLens(), DistLens(), s, 139, []) == Some(Progress(Text(), 289))
    ensures Block(2, s, 3, []) == Some(Progress(Text(), 289))
  {
    hide Body, DynamicCodes, LitLens, DistLens;
  }

  lemma KindTwo(s: seq<bool>)
    requires Next(s, 1, 2, 2)
    ensures 3 <= |s| && BitsNat(s[1..3]) == 2
  {
    Pow2Values();
    BitsNatOfNatBits(2, 2);
    LowSmall(2, 2);
    hide NatBits, BitsNat, Low, Pow2;
  }

  lemma LastBlock(s: seq<bool>, p: Progress)
    requires 3 <= |s| && s[0] && BitsNat(s[1..3]) == 2 && Block(2, s, 3, []) == Some(p)
    ensures Blocks(s, 0, []) == Some(p)
  {
    hide BitsNat, Block;
  }

  lemma FirstBit(s: seq<bool>)
    requires Next(s, 0, 1, 1)
    ensures |s| > 0 && s[0]
  {
    assert s[0..1][0] == s[0];
  }

  lemma StreamReads(s: seq<bool>)
    requires s == StreamBits()
    ensures Blocks(s, 0, []) == Some(Progress(Text(), 289))
  {
    hide *;
    Counts(s);
    Header(s);
    FortyEight(s);
    BlockReads(s);
    KindTwo(s);
    FirstBit(s);
    LastBlock(s, Progress(Text(), 289));
  }

  lemma CleanReading(s: seq<bool>, out: seq<byte>, pos: nat, wrapping: bool)
    requires Blocks(s, 0, []) == Some(Progress(out, pos))
    ensures StreamReading(s, false, wrapping) == Complete(out, pos, true)
  {
    CleanStream(s, false, wrapping);
    hide Blocks, TableBlocks;
  }

  /** The whole stream, with its runs of all three kinds, is read cleanly to its end. */
  lemma ReadsText(wrapping: bool)
    ensures StreamReading(ByteBits(Stream()), false, wrapping) == Complete(Text(), 289, true)
  {
    hide ByteBits, Stream, Blocks, StreamReading;
    StreamReads(StreamBits());
    CleanReading(StreamBits(), Text(), 289, wrapping);
  }
}
