/** Streams that are not of the format, and to which the decoder's tables give an end all the same. */
module TableExamples {
  import opened Bits
  import opened CanonicalCode
  import opened Deflate
  import opened HuffmanTable
  import opened CodeLengthPacking
  import opened DynamicHeader
  import opened BlockHeaders
  import opened TableDecoding
  import opened InflateMemory

  // ----- a length symbol without a meaning -----

  /** One block with the fixed codes: the byte 97, symbol 286, distance symbol 0, end of block. */
  const MEANINGLESS: seq<byte> := [0x4B, 0x1C, 0x03, 0x00]

  lemma {:induction false} BitsSplit(v: nat, m: nat, n: nat)
    ensures NatBits(v, m + n) == NatBits(v, m) + NatBits(Shr(v, m), n)
  {
    if m > 0 {
      BitsSplit(v / 2, m - 1, n);
    }
  }

  /** Four bits, written out. */
  ghost predicate Nibble(v: nat, a: bool, b: bool, c: bool, d: bool) {
    a == (v % 2 == 1) && b == (v / 2 % 2 == 1) && c == (v / 4 % 2 == 1) && d == (v / 8 % 2 == 1)
  }

  lemma NibbleIs(v: nat, a: bool, b: bool, c: bool, d: bool)
    requires Nibble(v, a, b, c, d)
    ensures NatBits(v, 4) == [a, b, c, d]
  {
    assert v / 2 / 2 == v / 4 && v / 4 / 2 == v / 8;
    assert NatBits(v / 4, 2) == [v / 4 % 2 == 1, v / 8 % 2 == 1];
  }

  /** The bits of a byte, from its two halves. */
  lemma ByteIs(v: nat, a: bool, b: bool, c: bool, d: bool, e: bool, f: bool, g: bool, h: bool)
    requires Nibble(v, a, b, c, d) && Nibble(v / 16, e, f, g, h)
    ensures NatBits(v, 8) == [a, b, c, d, e, f, g, h]
  {
    hide NatBits, Nibble, Shr;
    BitsSplit(v, 4, 4);
    Sixteenth(v);
    NibbleIs(v, a, b, c, d);
    NibbleIs(v / 16, e, f, g, h);
    calc {
      NatBits(v, 8);
      NatBits(v, 4) + NatBits(v / 16, 4);
      [a, b, c, d] + [e, f, g, h];
      [a, b, c, d, e, f, g, h];
    }
  }

  lemma Sixteenth(v: nat)
    ensures Shr(v, 4) == v / 16
  {
    var q, r := Shr(v, 4), Low(v, 4);
    SplitShift(v, 4);
    LowBound(v, 4);
    FourTimes(q);
    Pow2Values();
    hide Shr, Low, Shl;
  }

  lemma TwoBytes(a: byte, b: byte)
    ensures ByteBits([a, b]) == NatBits(a, 8) + NatBits(b, 8)
  {
    hide *;
    ByteBitsAppend([a], [b]);
    ByteBitsOne(a);
    ByteBitsOne(b);
    assert [a] + [b] == [a, b];
  }

  lemma FourBytes(a: byte, b: byte, c: byte, d: byte)
    ensures ByteBits([a, b, c, d]) == NatBits(a, 8) + NatBits(b, 8) + NatBits(c, 8) + NatBits(d, 8)
  {
    hide *;
    TwoBytes(a, b);
    TwoBytes(c, d);
    ByteBitsAppend([a, b], [c, d]);
    assert [a, b] + [c, d] == [a, b, c, d];
  }

  lemma MeaninglessBits()
    ensures ByteBits(MEANINGLESS) == [true, true, false, true, false, false, true, false]
      + [false, false, true, true, true, false, false, false] + [true, true, false, false, false, false, false, false]
      + [false, false, false, false, false, false, false, false]
  {
    hide NatBits, ByteBits;
    FourBytes(0x4B, 0x1C, 0x03, 0x00);
    ByteIs(0x4B, true, true, false, true, false, false, true, false);
    ByteIs(0x1C, false, false, true, true, true, false, false, false);
    ByteIs(0x03, true, true, false, false, false, false, false, false);
    ByteIs(0x00, false, false, false, false, false, false, false, false);
  }

  /** The fixed codes of eight bits count up from 48. */
  lemma EightBits(s: nat)
    requires s < 144 || 280 <= s < 288
    ensures StaticLit()[s] == 8 && CodeBits(StaticLit(), s) == MsbBits(if s < 144 then 48 + s else s - 88, 8)
  {
    StaticFirst();
    EightsBefore(s);
    hide MsbBits, Count, NextCode, StaticLit;
  }

  lemma EightsBefore(s: nat)
    requires s < 144 || 280 <= s < 288
    ensures StaticLit()[s] == 8 && Count(StaticLit()[..s], 8) == if s < 144 then s else s - 136
  {
    hide Count;
    if s < 144 {
      assert StaticLit()[..s] == Repeat(8, s);
      CountRepeat(8, s, 8);
    } else {
      var a, b, c := Repeat(8, 144), Repeat(9, 112), Repeat(7, 24);
      assert StaticLit()[..s] == a + b + c + Repeat(8, s - 280);
      hide Repeat, StaticLit;
      CountAppend(a + b + c, Repeat(8, s - 280), 8);
      CountAppend(a + b, c, 8);
      CountAppend(a, b, 8);
      CountRepeat(8, 144, 8);
      CountRepeat(9, 112, 8);
      CountRepeat(7, 24, 8);
      CountRepeat(8, s - 280, 8);
    }
  }

  lemma StaticFirst()
    ensures NextCode(StaticLit(), 7) == 0 && NextCode(StaticLit(), 8) == 48 && NextCode(StaticLit(), 9) == 400
  {
    var ll := StaticLit();
    forall l: nat ensures Count(ll, l) == if l == 7 then 24 else if l == 8 then 152 else if l == 9 then 112 else 0 {
      StaticLitCount(l);
    }
    hide Count, StaticLit;
    FirstCode(ll, 7);
    assert NextCode(ll, 8) == 2 * (NextCode(ll, 7) + Count(ll, 7));
    assert NextCode(ll, 9) == 2 * (NextCode(ll, 8) + Count(ll, 8));
  }

  /** The shortest codes start at zero. */
  lemma FirstCode(lens: seq<nat>, l: nat)
    requires 1 <= l && forall k :: 1 <= k < l ==> Count(lens, k) == 0
    ensures NextCode(lens, l) == 0
  {
    if l > 1 {
      FirstCode(lens, l - 1);
    }
  }

  lemma OthersBefore(s: nat)
    requires 144 <= s < 280
    ensures s < 256 ==> StaticLit()[s] == 9 && Count(StaticLit()[..s], 9) == s - 144
    ensures 256 <= s ==> StaticLit()[s] == 7 && Count(StaticLit()[..s], 7) == s - 256
  {
    hide Count;
    var a, b := Repeat(8, 144), Repeat(9, 112);
    if s < 256 {
      assert StaticLit()[..s] == a + Repeat(9, s - 144);
      hide Repeat, StaticLit;
      CountAppend(a, Repeat(9, s - 144), 9);
      CountRepeat(8, 144, 9);
      CountRepeat(9, s - 144, 9);
    } else {
      assert StaticLit()[..s] == a + b + Repeat(7, s - 256);
      hide Repeat, StaticLit;
      CountAppend(a + b, Repeat(7, s - 256), 7);
      CountAppend(a, b, 7);
      CountRepeat(8, 144, 7);
      CountRepeat(9, 112, 7);
      CountRepeat(7, s - 256, 7);
    }
  }

  /** The fixed codes, as the table of RFC 1951 section 3.2.6 has them. */
  lemma FixedLitCodes(s: nat)
    requires s < 288
    ensures CodeBits(StaticLit(), s)
         == if s < 144 then MsbBits(48 + s, 8) else if s < 256 then MsbBits(400 + (s - 144), 9)
            else if s < 280 then MsbBits(s - 256, 7) else MsbBits(192 + (s - 280), 8)
  {
    hide Count, NextCode, StaticLit, MsbBits;
    if s < 144 || 280 <= s {
      EightBits(s);
    } else {
      StaticFirst();
      OthersBefore(s);
    }
  }

  lemma FixedDistCodes(s: nat)
    requires s < 32
    ensures CodeBits(StaticDist(), s) == MsbBits(s, 5)
  {
    var d := StaticDist();
    forall l: nat | 1 <= l < 5 ensures Count(d, l) == 0 {
      CountAbsent(d, l);
    }
    FirstCode(d, 5);
    assert d[..s] == Repeat(5, s);
    CountRepeat(5, s, 5);
    hide MsbBits, NextCode, Count;
  }

  /** A lookup finds the code that is there. */
  lemma CodeTaken(lens: seq<nat>, sym: nat, bits: seq<bool>, pos: nat)
    requires Feasible(lens) && Used(lens, sym) && At(bits, pos, CodeBits(lens, sym))
    ensures TakenAt(lens, bits, pos) == Some(Taken(sym, lens[sym], true))
  {
    hide Feasible, CodeBits, At, Symbol;
    assert Codeword(lens, sym, bits, pos);
    SymbolIs(lens, sym, bits, pos);
  }

  lemma EightTaken(sym: nat, bits: seq<bool>, pos: nat)
    requires sym < 144 || 280 <= sym < 288
    requires At(bits, pos, MsbBits(if sym < 144 then 48 + sym else sym - 88, 8))
    ensures TakenAt(StaticLit(), bits, pos) == Some(Taken(sym, 8, true))
  {
    hide Feasible, CodeBits, At, StaticLit, StaticDist, MsbBits, TakenAt;
    StaticSizes(StaticLit(), StaticDist());
    EightBits(sym);
    CodeTaken(StaticLit(), sym, bits, pos);
  }

  /** The fixed codes of the end of a block and of distance symbol 0 are zeros. */
  lemma ZeroCodes()
    ensures StaticLit()[256] == 7 && CodeBits(StaticLit(), 256) == MsbBits(0, 7)
    ensures StaticDist()[0] == 5 && CodeBits(StaticDist(), 0) == MsbBits(0, 5)
  {
    StaticLitAt();
    FixedLitCodes(256);
    FixedDistCodes(0);
    hide StaticLit, MsbBits, CodeBits;
  }

  lemma ZerosTaken(bits: seq<bool>, pos: nat)
    ensures At(bits, pos, MsbBits(0, 7)) ==> TakenAt(StaticLit(), bits, pos) == Some(Taken(256, 7, true))
    ensures At(bits, pos, MsbBits(0, 5)) ==> TakenAt(StaticDist(), bits, pos) == Some(Taken(0, 5, true))
  {
    hide Feasible, At, CodeBits, StaticLit, StaticDist, MsbBits, TakenAt;
    ZeroCodes();
    StaticSizes(StaticLit(), StaticDist());
    if At(bits, pos, MsbBits(0, 7)) {
      CodeTaken(StaticLit(), 256, bits, pos);
    }
    if At(bits, pos, MsbBits(0, 5)) {
      CodeTaken(StaticDist(), 0, bits, pos);
    }
  }

  lemma FixedCodes()
    ensures MsbBits(145, 8) == [true, false, false, true, false, false, false, true]
    ensures MsbBits(0, 5) == [false, false, false, false, false]
    ensures MsbBits(0, 7) == [false, false, false, false, false, false, false]
  {
  }

  lemma LongestCode()
    ensures MsbBits(198, 8) == [true, true, false, false, false, true, true, false]
  {
  }

  /** The codes of this stream, where they are. */
  lemma MeaninglessCodes(s: seq<bool>)
    requires s == ByteBits(MEANINGLESS)
    ensures |s| == 32 && s[0] && s[1..3] == [true, false]
    ensures At(s, 3, MsbBits(145, 8)) && At(s, 11, MsbBits(198, 8)) && At(s, 19, MsbBits(0, 5))
    ensures At(s, 24, MsbBits(0, 7))
  {
    MeaninglessBits();
    FixedCodes();
    LongestCode();
    hide ByteBits, MsbBits;
    assert s[3..11] == [true, false, false, true, false, false, false, true];
    assert s[11..19] == [true, true, false, false, false, true, true, false];
    assert s[19..24] == [false, false, false, false, false];
    assert s[24..31] == [false, false, false, false, false, false, false];
  }

  lemma ZeroEntries()
    ensures LengthBaseAt(29) == 0 == LengthExtraAt(29) && DistBaseAt(0) == 1 && DistExtraAt(0) == 0
  {
  }

  lemma MeaninglessMatch(s: seq<bool>)
    requires |s| == 32 && TakenAt(StaticDist(), s, 19) == Some(Taken(0, 5, true))
    ensures MatchTaken(StaticDist(), 286, s, 19) == Some(CopyTaken(0, 1, 24, false))
  {
    ZeroEntries();
    FieldZero(s);
    hide TakenAt, StaticDist, Field, LengthBaseAt, LengthExtraAt, DistBaseAt, DistExtraAt;
    assert Field(s, 19, 0) == Some(0) && Field(s, 24, 0) == Some(0);
  }

  lemma MeaninglessBody(s: seq<bool>)
    requires s == ByteBits(MEANINGLESS)
    ensures TableBody(StaticLit(), StaticDist(), s, 3, []) == Complete([97], 31, false)
  {
    hide TableBody, TakenAt, MatchTaken, At, MsbBits, StaticLit, StaticDist, ByteBits;
    var ll, d := StaticLit(), StaticDist();
    MeaninglessCodes(s);
    EightTaken(97, s, 3);
    EightTaken(286, s, 11);
    ZerosTaken(s, 19);
    ZerosTaken(s, 24);
    MeaninglessMatch(s);
    BodyEnds(ll, d, s, 24, [97], 7);
    BodyCopies(ll, d, s, 11, [97], 286, 8, CopyTaken(0, 1, 24, false));
    BodyPuts(ll, d, s, 3, [], Taken(97, 8, true));
    assert [] + [97] == [97];
  }

  lemma BodyEnds(ll: seq<nat>, d: seq<nat>, s: seq<bool>, pos: nat, out: seq<byte>, n: nat)
    requires TakenAt(ll, s, pos) == Some(Taken(256, n, true))
    ensures TableBody(ll, d, s, pos, out) == Complete(out, pos + n, true)
  {
    hide TakenAt;
  }

  lemma BodyCopies(ll: seq<nat>, d: seq<nat>, s: seq<bool>, pos: nat, out: seq<byte>, sym: nat, n: nat, m: CopyTaken)
    requires TakenAt(ll, s, pos) == Some(Taken(sym, n, true)) && 257 <= sym < 288
    requires MatchTaken(d, sym, s, pos + n) == Some(m) && m.len == 0 && 1 <= m.dist <= |out|
    ensures TableBody(ll, d, s, pos, out) == Mark(m.clean, TableBody(ll, d, s, m.pos, out))
  {
    hide TakenAt, MatchTaken;
  }

  lemma BodyPuts(ll: seq<nat>, d: seq<nat>, s: seq<bool>, pos: nat, out: seq<byte>, t: Taken)
    requires TakenAt(ll, s, pos) == Some(t) && t.sym < 256 && t.len > 0
    ensures TableBody(ll, d, s, pos, out) == Mark(t.clean, TableBody(ll, d, s, pos + t.len, out + [t.sym]))
  {
    hide TakenAt;
  }

  lemma TypeOne()
    ensures BitsNat([true, false]) == 1
  {
    assert [true, false][1..] == [false] && [false][1..] == [];
  }

  /** Where the tables get to the end, though not cleanly, bytes are inflated that are no stream of the format. */
  lemma EndsUnclean(src: seq<byte>, out: seq<byte>, pos: nat, n: nat, wrapping: bool)
    requires TableBlocks(ByteBits(src), 0, []) == Complete(out, pos, false) && n == |src| && Aligned(pos) == 8 * n
    ensures StreamReading(ByteBits(src), false, wrapping) == Complete(out, pos, false)
    ensures Decoding(ByteBits(src), false, wrapping).None?
    ensures Inflated(src, false, wrapping) == Some(out)
  {
    hide TableBlocks, Decoding, ByteBits, Aligned;
    CleanStream(ByteBits(src), false, wrapping);
    assert EndsAt(src, false, out, pos, n);
  }

  /** The tables read it as the byte 97, and the format has no such stream. */
  lemma MeaninglessLength(wrapping: bool)
    ensures StreamReading(ByteBits(MEANINGLESS), false, wrapping) == Complete([97], 31, false)
    ensures Decoding(ByteBits(MEANINGLESS), false, wrapping).None?
    ensures Inflated(MEANINGLESS, false, wrapping) == Some([97])
  {
    var s := ByteBits(MEANINGLESS);
    hide TableBody, StaticLit, StaticDist, Decoding, StreamReading, Inflated, ByteBits;
    MeaninglessCodes(s);
    MeaninglessBody(s);
    TypeOne();
    EndsUnclean(MEANINGLESS, [97], 31, 4, wrapping);
  }

  // ----- bits that are no code -----

  /**
   One block with a code of its own in which only the end of the block has a code word, of twelve zeros. The body is ten
   zeros and a one, which are no code, and then the end of the block.
   */
  const STRAYING: seq<byte> := [0x05, 0x20, 0x81, 0x00, 0x00, 0x00, 0x20, 0xFF, 0xD7, 0x00, 0x10, 0x00, 0x00]
  const LL: seq<nat> := Repeat(0, 256) + [12]
  const D: seq<nat> := [12]
  const CL: seq<nat> := Repeat(0, 12) + [1] + Repeat(0, 5) + [1]
  const ITEMS: seq<Item> := [Item(18, 127), Item(18, 107), Item(12, 0), Item(12, 0)]

  /** Which bits of the stream are ones. */
  predicate One(k: nat) {
    || k == 0 || k == 2 || k == 13 || k == 16 || k == 23 || k == 53 || 56 <= k <= 66 || k == 68 || 70 <= k <= 71
    || k == 84
  }

  lemma ByteBitAt(bytes: seq<byte>, i: nat)
    requires i < |bytes|
    ensures ByteBits(bytes)[8 * i..8 * i + 8] == NatBits(bytes[i], 8)
  {
    hide ByteBits, NatBits;
    assert bytes == bytes[..i] + ([bytes[i]] + bytes[i + 1..]);
    ByteBitsMiddle(bytes[..i], [bytes[i]], bytes[i + 1..]);
    ByteBitsOne(bytes[i]);
  }

  function Ones(k: nat): seq<bool> {
    [One(k), One(k + 1), One(k + 2), One(k + 3), One(k + 4), One(k + 5), One(k + 6), One(k + 7)]
  }

  lemma OnesFirst()
    ensures NatBits(0x05, 8) == Ones(0) && NatBits(0x20, 8) == Ones(8) && NatBits(0x81, 8) == Ones(16)
  {
    hide NatBits;
    ByteIs(0x05, true, false, true, false, false, false, false, false);
    ByteIs(0x20, false, false, false, false, false, true, false, false);
    ByteIs(0x81, true, false, false, false, false, false, false, true);
  }

  lemma OnesLast()
    ensures NatBits(0x20, 8) == Ones(48) && NatBits(0xFF, 8) == Ones(56) && NatBits(0xD7, 8) == Ones(64)
    ensures NatBits(0x10, 8) == Ones(80)
  {
    hide NatBits;
    ByteIs(0x20, false, false, false, false, false, true, false, false);
    ByteIs(0xFF, true, true, true, true, true, true, true, true);
    ByteIs(0xD7, true, true, true, false, true, false, true, true);
    ByteIs(0x10, false, false, false, false, true, false, false, false);
  }

  lemma OnesNone()
    ensures NatBits(0, 8) == Ones(24) == Ones(32) == Ones(40) == Ones(72) == Ones(88) == Ones(96)
  {
    hide NatBits;
    ByteIs(0x00, false, false, false, false, false, false, false, false);
  }

  lemma StrayingByte(i: nat)
    requires i < 13
    ensures NatBits(STRAYING[i], 8) == Ones(8 * i)
  {
    hide NatBits, Ones;
    OnesFirst();
    OnesLast();
    OnesNone();
  }

  lemma StrayingBits(s: seq<bool>)
    requires s == ByteBits(STRAYING)
    ensures |s| == 104 && forall k: nat :: k < 104 ==> s[k] == One(k)
  {
    hide One, ByteBits, NatBits;
    forall k: nat | k < 104 ensures s[k] == One(k) {
      var i, j := k / 8, k % 8;
      ByteBitAt(STRAYING, i);
      StrayingByte(i);
      assert s[8 * i..8 * i + 8][j] == s[k];
    }
  }

  // ----- its header -----

  lemma ZeroBits(n: nat, k: nat)
    requires k < n
    ensures !NatBits(0, n)[k]
  {
    if k > 0 {
      ZeroBits(n - 1, k - 1);
    }
  }

  lemma StrayingCounts(s: seq<bool>)
    requires |s| == 104 && forall k: nat :: k < 104 ==> s[k] == One(k)
    ensures s[0] && s[1..3] == [false, true] && At(s, 3, CountBits(257, 1, 13))
  {
    hide NatBits;
    NibbleIs(9, true, false, false, true);
    forall k: nat | k < 5 ensures !NatBits(0, 5)[k] {
      ZeroBits(5, k);
    }
    assert NatBits(0, 5) == [false, false, false, false, false];
    assert s[3..17] == CountBits(257, 1, 13);
  }

  /** The code length code: symbols 12 and 18, of one bit each. */
  lemma {:induction false} StrayingCl(s: seq<bool>, n: nat)
    requires |s| == 104 && (forall k: nat :: k < 104 ==> s[k] == One(k)) && n <= 13
    ensures At(s, 17, ClBits(CL, n))
  {
    if n > 0 {
      StrayingCl(s, n - 1);
      ClAt(s, n - 1);
      hide NatBits, ClBits, One, At;
      AtAppend(s, 17, ClBits(CL, n - 1), NatBits(CL[Order(n - 1)], 3));
      ClNext(n);
    } else {
      assert s[17..17] == [];
    }
  }

  lemma ClNext(n: nat)
    requires 0 < n <= 13
    ensures ClBits(CL, n) == ClBits(CL, n - 1) + NatBits(CL[Order(n - 1)], 3)
  {
  }

  lemma ClAt(s: seq<bool>, i: nat)
    requires |s| == 104 && (forall k: nat :: k < 104 ==> s[k] == One(k)) && i < 13
    ensures At(s, 17 + 3 * i, NatBits(CL[Order(i)], 3))
  {
    assert CL[Order(i)] == if i == 2 || i == 12 then 1 else 0;
    ThreeBits();
    hide NatBits;
    assert s[17 + 3 * i..20 + 3 * i] == if i == 2 || i == 12 then [true, false, false] else [false, false, false];
  }

  lemma ThreeBits()
    ensures NatBits(0, 3) == [false, false, false] && NatBits(1, 3) == [true, false, false]
  {
  }

  lemma ClCounts(l: nat)
    ensures Count(CL, l) == if l == 0 then 17 else if l == 1 then 2 else 0
    ensures l == 1 ==> Count(CL[..12], l) == 0 && Count(CL[..18], l) == 1
  {
    hide Count;
    var a, b := Repeat(0, 12), Repeat(0, 5);
    assert CL[..12] == a && CL[..18] == a + [1] + b;
    hide Repeat;
    CountAppend(a + [1] + b, [1], l);
    CountAppend(a + [1], b, l);
    CountAppend(a, [1], l);
    CountRepeat(0, 12, l);
    CountRepeat(0, 5, l);
    CountOne(1, l);
  }

  lemma CountOne(v: nat, l: nat)
    ensures Count([v], l) == if v == l then 1 else 0
  {
    assert [v][..0] == [];
  }

  lemma ClCodeBits()
    ensures CL[12] == 1 == CL[18] && CodeBits(CL, 12) == [false] && CodeBits(CL, 18) == [true]
    ensures Kraft(CL) == 32768
  {
    ClCounts(1);
    forall l: nat | 2 <= l < 16 ensures Count(CL, l) == 0 {
      ClCounts(l);
    }
    hide Count, Repeat;
    BelowZero(CL, 2, 16);
    assert Below(CL, 1) == 0;
    BelowStep(CL, 2, 2, 0);
    ShlShl(1, 1, 14);
    Pow2Values();
    assert Shl(1, 1) == 2;
    assert MsbBits(0, 1) == [false] && MsbBits(1, 1) == [true];
  }

  lemma SevenBits()
    ensures NatBits(127, 7) == [true, true, true, true, true, true, true]
    ensures NatBits(107, 7) == [true, true, false, true, false, true, true]
  {
    hide NatBits;
    ByteIs(127, true, true, true, true, true, true, true, false);
    ByteIs(107, true, true, false, true, false, true, true, false);
    BitsSplit(127, 7, 1);
    BitsSplit(107, 7, 1);
    assert NatBits(127, 7) == NatBits(127, 8)[..7] && NatBits(107, 7) == NatBits(107, 8)[..7];
  }

  /** The code lengths of both codes: 256 zeros and two twelves. */
  lemma StrayingItems(s: seq<bool>)
    requires |s| == 104 && forall k: nat :: k < 104 ==> s[k] == One(k)
    ensures ItemsSendable(CL, ITEMS) && At(s, 56, ItemsBits(CL, ITEMS)) && |ItemsBits(CL, ITEMS)| == 18
  {
    ClCodeBits();
    hide CodeBits;
    ItemsWritten();
    hide ItemsBits;
    assert s[56..74] == ItemsBits(CL, ITEMS);
  }

  lemma ItemsWritten()
    requires ItemsSendable(CL, ITEMS) && CodeBits(CL, 12) == [false] && CodeBits(CL, 18) == [true]
    ensures ItemsBits(CL, ITEMS) == [true, true, true, true, true, true, true, true]
      + [true, true, true, false, true, false, true, true] + [false, false]
  {
    hide CodeBits, NatBits, ItemsBits;
    SevenBits();
    ItemsStart();
    var a, b, c := ITEMS[..1], ITEMS[..2], ITEMS[..3];
    assert ITEMS[..4] == ITEMS;
    ItemsNext(0);
    ItemsNext(1);
    ItemsNext(2);
    ItemsNext(3);
    assert ItemsBits(CL, a) == [true, true, true, true, true, true, true, true];
    assert ItemsBits(CL, b) == ItemsBits(CL, a) + [true, true, true, false, true, false, true, true];
    assert ItemsBits(CL, c) == ItemsBits(CL, b) + [false];
  }

  lemma ItemsStart()
    ensures ItemsBits(CL, ITEMS[..0]) == [] == NatBits(0, 0)
  {
  }

  lemma ItemsNext(k: nat)
    requires k < 4 && ItemsSendable(CL, ITEMS)
    ensures ItemsBits(CL, ITEMS[..k + 1])
      == ItemsBits(CL, ITEMS[..k]) + (CodeBits(CL, ITEMS[k].sym) + NatBits(ITEMS[k].extra, ExtraBits(ITEMS[k].sym)))
  {
    assert ITEMS[..k + 1][..k] == ITEMS[..k];
    hide CodeBits, NatBits, ExtraBits;
  }

  lemma Unpacked()
    ensures UnpackAll([], ITEMS) == LL + D
  {
    var a, b, c := ITEMS[..1], ITEMS[..2], ITEMS[..3];
    assert ITEMS[..4] == ITEMS && c[..2] == b && b[..1] == a && a[..0] == [];
    assert UnpackAll([], []) == [];
    assert UnpackAll([], a) == Repeat(0, 138);
    assert UnpackAll([], b) == Repeat(0, 138) + Repeat(0, 118) == Repeat(0, 256);
    assert UnpackAll([], c) == LL;
  }

  lemma StrayingHeaderOk()
    ensures HeaderOk(LL, D, 13, CL, ITEMS)
  {
    ClCodeBits();
    Unpacked();
    Pow2Values();
    hide Kraft, UnpackAll, CodeBits;
  }

  /** The header gives the two codes, and ends before bit 74. */
  lemma StrayingHeader(s: seq<bool>)
    requires |s| == 104 && forall k: nat :: k < 104 ==> s[k] == One(k)
    ensures HeaderGives(s, 3, LL, D, 74)
  {
    StrayingCounts(s);
    StrayingCl(s, 13);
    StrayingItems(s);
    StrayingHeaderOk();
    hide *;
    HeaderReads(LL, D, 13, CL, ITEMS, s, 3);
  }

  /** A header that the format reads is read by the tables. */
  lemma HeaderTaken(s: seq<bool>, pos: nat, out: seq<byte>, ll: seq<nat>, d: seq<nat>, end: nat)
    requires HeaderGives(s, pos, ll, d, end)
    ensures TableDynamic(s, pos, out) == TableBody(ll, d, s, end, out)
  {
    hide Lengths, TableLengths, TableBody, CodeOk, ClLengths, Repeat, BitsNat;
    var nLit, nDist := BitsNat(s[pos..pos + 5]) + 257, BitsNat(s[pos + 5..pos + 10]) + 1;
    var nCl := BitsNat(s[pos + 10..pos + 14]) + 4;
    var cl := ClLengths(nCl, s, pos + 14, Repeat(0, 19), 0).value;
    CleanLengths(cl, nLit + nDist, s, pos + 14 + 3 * nCl, []);
  }

  // ----- its body -----

  lemma EndCode()
    ensures Feasible(LL) && Used(LL, 256) && LL[256] == 12 && CodeBits(LL, 256) == MsbBits(0, 12)
  {
    forall l: nat ensures Count(LL, l) == if l == 0 then 256 else if l == 12 then 1 else 0 {
      CountAppend(Repeat(0, 256), [12], l);
      CountRepeat(0, 256, l);
      CountOne(12, l);
    }
    assert LL[..256] == Repeat(0, 256);
    CountRepeat(0, 256, 12);
    FirstCode(LL, 12);
    hide Count, NextCode, Repeat;
    BelowZero(LL, 1, 12);
    BelowStep(LL, 13, 1, 0);
    BelowZero(LL, 13, 16);
    assert Below(LL, 1) == 0 && Shl(1, 3) == 8;
  }

  lemma TwelveZeros(k: nat)
    requires k < 12
    ensures !MsbBits(0, 12)[k]
  {
    assert MsbBits(0, 12) == MsbBits(0, 8) + [false, false, false, false];
    assert MsbBits(0, 8) == [false, false, false, false, false, false, false, false];
  }

  /** Ten zeros are on the way to the only code, a one after them is not. */
  lemma StrayingLookup(s: seq<bool>)
    requires |s| == 104 && forall k: nat :: k < 104 ==> s[k] == One(k)
    ensures TakenAt(LL, s, 74) == Some(Taken(0, 11, false)) && TakenAt(LL, s, 85) == Some(Taken(256, 12, true))
  {
    EndCode();
    forall k: nat | k < 12 ensures !MsbBits(0, 12)[k] {
      TwelveZeros(k);
    }
    assert forall t: nat :: Used(LL, t) ==> t == 256;
    hide CodeBits, Feasible, MsbBits, TakenAt, Symbol;
    assert s[74..84] == MsbBits(0, 12)[..10];
    assert s[74 + 10] && s[74..85][10];
    assert Going(LL, s, 74, 10) && !Going(LL, s, 74, 11);
    assert forall t: nat :: !Codeword(LL, t, s, 74) by {
      assert s[74..86][10];
    }
    NoSymbol(LL, s, 74);
    StrayTaken(LL, s, 74, 11);
    assert s[85..97] == MsbBits(0, 12);
    CodeTaken(LL, 256, s, 85);
  }

  lemma StrayingBody(s: seq<bool>)
    requires TakenAt(LL, s, 74) == Some(Taken(0, 11, false)) && TakenAt(LL, s, 85) == Some(Taken(256, 12, true))
    ensures TableBody(LL, D, s, 74, []) == Complete([0], 97, false)
  {
    hide TableBody, TakenAt;
    BodyPuts(LL, D, s, 74, [], Taken(0, 11, false));
    BodyEnds(LL, D, s, 85, [0], 12);
    assert [] + [0] == [0];
  }

  /** A stream of one block with codes of its own. */
  lemma OneBlock(s: seq<bool>, r: Reading)
    requires 3 <= |s| && s[0] && s[1..3] == [false, true] && TableDynamic(s, 3, []) == r
    ensures TableBlocks(s, 0, []) == r
  {
    hide TableDynamic;
    TypeTwo();
  }

  lemma StrayingBlock(s: seq<bool>)
    requires |s| == 104 && forall k: nat :: k < 104 ==> s[k] == One(k)
    ensures TableBlocks(s, 0, []) == Complete([0], 97, false)
  {
    hide *;
    StrayingHeader(s);
    StrayingLookup(s);
    StrayingCounts(s);
    StrayingBody(s);
    HeaderTaken(s, 3, [], LL, D, 74);
    OneBlock(s, Complete([0], 97, false));
  }

  /** The tables read it as a zero byte, and the format has no such stream. */
  lemma StrayingCode(wrapping: bool)
    ensures StreamReading(ByteBits(STRAYING), false, wrapping) == Complete([0], 97, false)
    ensures Decoding(ByteBits(STRAYING), false, wrapping).None?
    ensures Inflated(STRAYING, false, wrapping) == Some([0])
  {
    var s := ByteBits(STRAYING);
    hide TableBlocks, ByteBits, One, StreamReading, Decoding, Inflated;
    StrayingBits(s);
    StrayingBlock(s);
    EndsUnclean(STRAYING, [0], 97, 13, wrapping);
  }

  lemma TypeTwo()
    ensures BitsNat([false, true]) == 2
  {
    assert [false, true][1..] == [true] && [true][1..] == [];
  }
}
