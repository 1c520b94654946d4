/** mz_crc32: a table lookup per byte, four bytes a round, is long division over GF(2) (RFC 1952 section 8). */
module Crc32 {
  // ----- polynomial division -----

  /** A polynomial over GF(2): its coefficients, the highest power first. */
  type Poly = seq<bool>

  /** The powers of the generator below 32. */
  const GENERATOR: set<int> := {26, 23, 22, 16, 12, 11, 10, 8, 7, 5, 4, 2, 1, 0}

  /** The generator, less its leading term. */
  function Generator(): (g: Poly)
    ensures |g| == 32
  {
    seq(32, i => 31 - i in GENERATOR)
  }

  function Nought(n: nat): (z: Poly)
    ensures |z| == n
  {
    seq(n, _ => false)
  }

  function Ones(n: nat): (z: Poly)
    ensures |z| == n
  {
    seq(n, _ => true)
  }

  function Sum(a: Poly, b: Poly): (c: Poly)
    requires |a| == |b|
    ensures |c| == |a| && forall i :: 0 <= i < |a| ==> c[i] == (a[i] != b[i])
  {
    seq(|a|, i requires 0 <= i < |a| => a[i] != b[i])
  }

  /** Long division: the generator is taken away wherever a coefficient above the lowest 32 is left. */
  function Remainder(p: Poly): (r: Poly)
    requires 32 <= |p|
    ensures |r| == 32
    decreases |p|
  {
    if |p| == 32 then p
    else Remainder(if p[0] then Sum(p[1..], Generator() + Nought(|p| - 33)) else p[1..])
  }

  function Low(r: bv32): bool {
    r & 1 == 1
  }

  function Half(r: bv32): bv32 {
    r >> 1
  }

  function Flip(r: bv32, s: bv32): bv32 {
    r ^ s
  }

  /** The lowest n bits of a word, the lowest first. */
  function Bits(r: bv32, n: nat): (p: Poly)
    ensures |p| == n
  {
    if n == 0 then [] else [Low(r)] + Bits(Half(r), n - 1)
  }

  function ByteBits(b: bv8): Poly {
    Bits(b as bv32, 8)
  }

  function MessageBits(m: seq<bv8>): (p: Poly)
    ensures |p| == 8 * |m|
  {
    if m == [] then [] else ByteBits(m[0]) + MessageBits(m[1..])
  }

  /** The message times x^32, with the first 32 coefficients turned over. */
  function Dividend(m: seq<bv8>): (p: Poly)
    ensures |p| == 8 * |m| + 32
  {
    Sum(MessageBits(m) + Nought(32), Ones(32) + Nought(8 * |m|))
  }

  // ----- the shift register -----

  function Step(r: bv32): bv32 {
    if Low(r) then Flip(Half(r), 0xEDB8_8320) else Half(r)
  }

  function Steps(r: bv32, n: nat): bv32 {
    if n == 0 then r else Step(Steps(r, n - 1))
  }

  function Absorb(r: bv32, b: bv8): bv32 {
    Steps(Flip(r, b as bv32), 8)
  }

  /** The register after the bytes of m. */
  function Register(r: bv32, m: seq<bv8>): bv32
    decreases |m|
  {
    if m == [] then r else Register(Absorb(r, m[0]), m[1..])
  }

  // ----- the register divides -----

  function BitIn(r: bv32, b: bool): bv32 {
    Step(if b then Flip(r, 1) else r)
  }

  function BitsIn(r: bv32, p: Poly): bv32
    decreases |p|
  {
    if p == [] then r else BitsIn(BitIn(r, p[0]), p[1..])
  }

  lemma {:induction false} BitsSum(a: bv32, b: bv32, n: nat)
    ensures Bits(Flip(a, b), n) == Sum(Bits(a, n), Bits(b, n))
    decreases n
  {
    hide Low, Half, Flip;
    if n > 0 {
      FlipShift(a, b);
      BitsSum(Half(a), Half(b), n - 1);
    }
  }

  lemma FlipShift(a: bv32, b: bv32)
    ensures Half(Flip(a, b)) == Flip(Half(a), Half(b)) && Low(Flip(a, b)) == (Low(a) != Low(b))
  {
    ShiftXor(a, b);
  }

  lemma ShiftXor(a: bv32, b: bv32)
    ensures (a ^ b) >> 1 == (a >> 1) ^ (b >> 1)
    ensures ((a ^ b) & 1 == 1) == ((a & 1 == 1) != (b & 1 == 1))
  {
  }

  /** The word shifted right k times. */
  function Halves(r: bv32, k: nat): bv32 {
    if k == 0 then r else Halves(Half(r), k - 1)
  }

  lemma {:induction false} LastBit(r: bv32, k: nat)
    ensures Bits(r, k + 1) == Bits(r, k) + [Low(Halves(r, k))]
    decreases k
  {
    hide Low, Half;
    if k == 0 {
      assert Bits(r, 1) == [Low(r)] + Bits(Half(r), 0);
    } else {
      LastBit(Half(r), k - 1);
    }
  }

  /** Shifting drops the first coefficient and appends a zero. */
  lemma ShiftBits(r: bv32)
    ensures Bits(Half(r), 32) == Bits(r, 32)[1..] + [false]
  {
    hide Low, Half;
    LastBit(r, 32);
    NothingLeft(r);
    assert Bits(Half(r), 32) == Bits(r, 33)[1..];
  }

  lemma NothingLeft(r: bv32)
    ensures !Low(Halves(r, 32))
  {
    hide *;
    FourHalves(r, 28, r >> 4);
    FourHalves(r >> 4, 24, r >> 8);
    FourHalves(r >> 8, 20, r >> 12);
    FourHalves(r >> 12, 16, r >> 16);
    FourHalves(r >> 16, 12, r >> 20);
    FourHalves(r >> 20, 8, r >> 24);
    FourHalves(r >> 24, 4, r >> 28);
    FourHalves(r >> 28, 0, 0);
    NoHalves(0);
    LowZero();
  }

  lemma NoHalves(r: bv32)
    ensures Halves(r, 0) == r
  {
  }

  lemma LowZero()
    ensures !Low(0)
  {
  }

  lemma FourHalves(r: bv32, k: nat, s: bv32)
    requires s == r >> 4
    ensures Halves(r, k + 4) == Halves(s, k)
  {
    hide *;
    ShiftFour(r);
    var a: bv32 :| a == r >> 1;
    var b: bv32 :| b == a >> 1;
    var c: bv32 :| c == b >> 1;
    FourSteps(r, a, b, c, s, k);
  }

  lemma FourSteps(r: bv32, a: bv32, b: bv32, c: bv32, s: bv32, k: nat)
    requires a == r >> 1 && b == a >> 1 && c == b >> 1 && s == c >> 1
    ensures Halves(r, k + 4) == Halves(s, k)
  {
    hide *;
    HalvesNext(r, k + 3, a);
    HalvesNext(a, k + 2, b);
    HalvesNext(b, k + 1, c);
    HalvesNext(c, k, s);
  }

  lemma HalvesNext(r: bv32, k: nat, a: bv32)
    requires a == r >> 1
    ensures Halves(r, k + 1) == Halves(a, k)
  {
  }

  lemma ShiftFour(r: bv32)
    ensures (((r >> 1) >> 1) >> 1) >> 1 == r >> 4
  {
  }

  /** The constant of the code is the generator. */
  lemma GeneratorBits()
    ensures Bits(0xEDB8_8320, 32) == Generator()
  {
    hide *;
    NibbleBits(0xEDB8_8320, 28, 0xEDB_8832);
    NibbleBits(0xEDB_8832, 24, 0xED_B883);
    NibbleBits(0xED_B883, 20, 0xE_DB88);
    NibbleBits(0xE_DB88, 16, 0xEDB8);
    NibbleBits(0xEDB8, 12, 0xEDB);
    NibbleBits(0xEDB, 8, 0xED);
    NibbleBits(0xED, 4, 0xE);
    NibbleBits(0xE, 0, 0);
    var b := [false, false, false, false] + [false, true, false, false] + [true, true, false, false]
        + [false, false, false, true];
    var c := [false, false, false, true] + [true, true, false, true] + [true, false, true, true]
        + [false, true, true, true];
    GeneratorIs(b + c);
    NoBits(0);
    assert Bits(0xEDB8_8320, 32) == b + c;
  }

  lemma NoBits(r: bv32)
    ensures Bits(r, 0) == []
  {
  }

  lemma NibbleBits(r: bv32, n: nat, s: bv32)
    requires s == r >> 4
    ensures Bits(r, n + 4) == [r & 1 == 1, r & 2 == 2, r & 4 == 4, r & 8 == 8] + Bits(s, n)
  {
    hide *;
    ShiftFour(r);
    ShiftedBits(r);
    var a: bv32 :| a == r >> 1;
    var b: bv32 :| b == a >> 1;
    var c: bv32 :| c == b >> 1;
    BitsFirst(r, a, n + 3);
    BitsFirst(a, b, n + 2);
    BitsFirst(b, c, n + 1);
    BitsFirst(c, s, n);
  }

  lemma BitsFirst(r: bv32, s: bv32, n: nat)
    requires s == r >> 1
    ensures Bits(r, n + 1) == [r & 1 == 1] + Bits(s, n)
  {
  }

  lemma ShiftedBits(r: bv32)
    ensures ((r >> 1) & 1 == 1) == (r & 2 == 2)
    ensures (((r >> 1) >> 1) & 1 == 1) == (r & 4 == 4)
    ensures ((((r >> 1) >> 1) >> 1) & 1 == 1) == (r & 8 == 8)
  {
  }

  lemma GeneratorIs(p: Poly)
    requires p == [false, false, false, false, false, true, false, false, true, true, false, false, false, false,
        false, true,
                   false, false, false, true, true, true, false, true, true, false, true, true, false, true, true, true]
    ensures p == Generator()
  {
  }

  /** One step of the register is one step of the division. */
  lemma StepBits(r: bv32)
    ensures Bits(Step(r), 32)
      == if Bits(r, 32)[0] then Sum(Bits(r, 32)[1..] + [false], Generator()) else Bits(r, 32)[1..] + [false]
  {
    hide Low, Half, Flip, Generator;
    ShiftBits(r);
    if Low(r) {
      BitsSum(Half(r), 0xEDB8_8320, 32);
      GeneratorBits();
    }
  }

  // ----- the table -----

  function Pick(v: bv8, a0: bv32, a1: bv32, a2: bv32, a3: bv32, a4: bv32, a5: bv32, a6: bv32, a7: bv32,
                a8: bv32, a9: bv32, a10: bv32, a11: bv32, a12: bv32, a13: bv32, a14: bv32, a15: bv32): bv32
  {
    if v & 8 == 0 then
      if v & 4 == 0 then
        if v & 2 == 0 then if v & 1 == 0 then a0 else a1 else if v & 1 == 0 then a2 else a3
      else if v & 2 == 0 then if v & 1 == 0 then a4 else a5 else if v & 1 == 0 then a6 else a7
    else if v & 4 == 0 then
      if v & 2 == 0 then if v & 1 == 0 then a8 else a9 else if v & 1 == 0 then a10 else a11
    else if v & 2 == 0 then if v & 1 == 0 then a12 else a13 else if v & 1 == 0 then a14 else a15
  }

  /** The table, sixteen entries a row. */
  function Table(v: bv8): bv32 {
    if v < 0x10 then Pick(v,
      0x00000000, 0x77073096, 0xEE0E612C, 0x990951BA, 0x076DC419, 0x706AF48F, 0xE963A535, 0x9E6495A3,
      0x0EDB8832, 0x79DCB8A4, 0xE0D5E91E, 0x97D2D988, 0x09B64C2B, 0x7EB17CBD, 0xE7B82D07, 0x90BF1D91)
    else if v < 0x20 then Pick(v,
      0x1DB71064, 0x6AB020F2, 0xF3B97148, 0x84BE41DE, 0x1ADAD47D, 0x6DDDE4EB, 0xF4D4B551, 0x83D385C7,
      0x136C9856, 0x646BA8C0, 0xFD62F97A, 0x8A65C9EC, 0x14015C4F, 0x63066CD9, 0xFA0F3D63, 0x8D080DF5)
    else if v < 0x30 then Pick(v,
      0x3B6E20C8, 0x4C69105E, 0xD56041E4, 0xA2677172, 0x3C03E4D1, 0x4B04D447, 0xD20D85FD, 0xA50AB56B,
      0x35B5A8FA, 0x42B2986C, 0xDBBBC9D6, 0xACBCF940, 0x32D86CE3, 0x45DF5C75, 0xDCD60DCF, 0xABD13D59)
    else if v < 0x40 then Pick(v,
      0x26D930AC, 0x51DE003A, 0xC8D75180, 0xBFD06116, 0x21B4F4B5, 0x56B3C423, 0xCFBA9599, 0xB8BDA50F,
      0x2802B89E, 0x5F058808, 0xC60CD9B2, 0xB10BE924, 0x2F6F7C87, 0x58684C11, 0xC1611DAB, 0xB6662D3D)
    else if v < 0x50 then Pick(v,
      0x76DC4190, 0x01DB7106, 0x98D220BC, 0xEFD5102A, 0x71B18589, 0x06B6B51F, 0x9FBFE4A5, 0xE8B8D433,
      0x7807C9A2, 0x0F00F934, 0x9609A88E, 0xE10E9818, 0x7F6A0DBB, 0x086D3D2D, 0x91646C97, 0xE6635C01)
    else if v < 0x60 then Pick(v,
      0x6B6B51F4, 0x1C6C6162, 0x856530D8, 0xF262004E, 0x6C0695ED, 0x1B01A57B, 0x8208F4C1, 0xF50FC457,
      0x65B0D9C6, 0x12B7E950, 0x8BBEB8EA, 0xFCB9887C, 0x62DD1DDF, 0x15DA2D49, 0x8CD37CF3, 0xFBD44C65)
    else if v < 0x70 then Pick(v,
      0x4DB26158, 0x3AB551CE, 0xA3BC0074, 0xD4BB30E2, 0x4ADFA541, 0x3DD895D7, 0xA4D1C46D, 0xD3D6F4FB,
      0x4369E96A, 0x346ED9FC, 0xAD678846, 0xDA60B8D0, 0x44042D73, 0x33031DE5, 0xAA0A4C5F, 0xDD0D7CC9)
    else if v < 0x80 then Pick(v,
      0x5005713C, 0x270241AA, 0xBE0B1010, 0xC90C2086, 0x5768B525, 0x206F85B3, 0xB966D409, 0xCE61E49F,
      0x5EDEF90E, 0x29D9C998, 0xB0D09822, 0xC7D7A8B4, 0x59B33D17, 0x2EB40D81, 0xB7BD5C3B, 0xC0BA6CAD)
    else if v < 0x90 then Pick(v,
      0xEDB88320, 0x9ABFB3B6, 0x03B6E20C, 0x74B1D29A, 0xEAD54739, 0x9DD277AF, 0x04DB2615, 0x73DC1683,
      0xE3630B12, 0x94643B84, 0x0D6D6A3E, 0x7A6A5AA8, 0xE40ECF0B, 0x9309FF9D, 0x0A00AE27, 0x7D079EB1)
    else if v < 0xA0 then Pick(v,
      0xF00F9344, 0x8708A3D2, 0x1E01F268, 0x6906C2FE, 0xF762575D, 0x806567CB, 0x196C3671, 0x6E6B06E7,
      0xFED41B76, 0x89D32BE0, 0x10DA7A5A, 0x67DD4ACC, 0xF9B9DF6F, 0x8EBEEFF9, 0x17B7BE43, 0x60B08ED5)
    else if v < 0xB0 then Pick(v,
      0xD6D6A3E8, 0xA1D1937E, 0x38D8C2C4, 0x4FDFF252, 0xD1BB67F1, 0xA6BC5767, 0x3FB506DD, 0x48B2364B,
      0xD80D2BDA, 0xAF0A1B4C, 0x36034AF6, 0x41047A60, 0xDF60EFC3, 0xA867DF55, 0x316E8EEF, 0x4669BE79)
    else if v < 0xC0 then Pick(v,
      0xCB61B38C, 0xBC66831A, 0x256FD2A0, 0x5268E236, 0xCC0C7795, 0xBB0B4703, 0x220216B9, 0x5505262F,
      0xC5BA3BBE, 0xB2BD0B28, 0x2BB45A92, 0x5CB36A04, 0xC2D7FFA7, 0xB5D0CF31, 0x2CD99E8B, 0x5BDEAE1D)
    else if v < 0xD0 then Pick(v,
      0x9B64C2B0, 0xEC63F226, 0x756AA39C, 0x026D930A, 0x9C0906A9, 0xEB0E363F, 0x72076785, 0x05005713,
      0x95BF4A82, 0xE2B87A14, 0x7BB12BAE, 0x0CB61B38, 0x92D28E9B, 0xE5D5BE0D, 0x7CDCEFB7, 0x0BDBDF21)
    else if v < 0xE0 then Pick(v,
      0x86D3D2D4, 0xF1D4E242, 0x68DDB3F8, 0x1FDA836E, 0x81BE16CD, 0xF6B9265B, 0x6FB077E1, 0x18B74777,
      0x88085AE6, 0xFF0F6A70, 0x66063BCA, 0x11010B5C, 0x8F659EFF, 0xF862AE69, 0x616BFFD3, 0x166CCF45)
    else if v < 0xF0 then Pick(v,
      0xA00AE278, 0xD70DD2EE, 0x4E048354, 0x3903B3C2, 0xA7672661, 0xD06016F7, 0x4969474D, 0x3E6E77DB,
      0xAED16A4A, 0xD9D65ADC, 0x40DF0B66, 0x37D83BF0, 0xA9BCAE53, 0xDEBB9EC5, 0x47B2CF7F, 0x30B5FFE9)
    else Pick(v,
      0xBDBDF21C, 0xCABAC28A, 0x53B39330, 0x24B4A3A6, 0xBAD03605, 0xCDD70693, 0x54DE5729, 0x23D967BF,
      0xB3667A2E, 0xC4614AB8, 0x5D681B02, 0x2A6F2B94, 0xB40BBE37, 0xC30C8EA1, 0x5A05DF1B, 0x2D02EF8D)
  }

  /** Every entry is what eight steps make of its index. */
  lemma TableIs(v: bv8)
    ensures Table(v) == Steps(v as bv32, 8)
  {
    EightSteps(v as bv32);
    hide Steps;
    TableStepped(v);
  }

  lemma EightSteps(r: bv32)
    ensures Steps(r, 8) == Step(Step(Step(Step(Step(Step(Step(Step(r))))))))
  {
    hide Step;
    StepsNext(r, 0);
    StepsNext(r, 1);
    StepsNext(r, 2);
    StepsNext(r, 3);
    StepsNext(r, 4);
    StepsNext(r, 5);
    StepsNext(r, 6);
    StepsNext(r, 7);
  }

  lemma StepsNext(r: bv32, n: nat)
    ensures Steps(r, n + 1) == Step(Steps(r, n)) && Steps(r, 0) == r
  {
  }

  lemma TableStepped(v: bv8)
    ensures Table(v) == Step(Step(Step(Step(Step(Step(Step(Step(v as bv32))))))))
  {
  }

  // ----- bits taken in together -----

  lemma FlipLaws(a: bv32, b: bv32, c: bv32)
    ensures Flip(Flip(a, b), c) == Flip(a, Flip(b, c)) && Flip(a, b) == Flip(b, a) && Flip(a, 0) == a && Flip(a, a) == 0
  {
    XorLaws(a, b, c);
  }

  lemma XorLaws(a: bv32, b: bv32, c: bv32)
    ensures (a ^ b) ^ c == a ^ (b ^ c) && a ^ b == b ^ a && a ^ 0 == a && a ^ a == 0
  {
  }

  lemma OneBit()
    ensures Low(1) && Half(1) == 0
  {
  }

  /** Only the lowest bit of what is flipped in meets the generator. */
  lemma StepFlip(r: bv32, h: bv32)
    ensures Step(Flip(r, h)) == Flip(BitIn(r, Low(h)), Half(h))
  {
    hide Low, Half, Flip;
    FlipShift(r, h);
    FlipShift(r, 1);
    OneBit();
    FlipLaws(Half(r), 0, 0);
    FlipLaws(Half(r), Half(h), 0xEDB8_8320);
    FlipLaws(Half(r), 0xEDB8_8320, Half(h));
    FlipLaws(Half(h), 0xEDB8_8320, 0);
  }

  lemma {:induction false} BitsInSnoc(r: bv32, p: Poly, b: bool)
    ensures BitsIn(r, p + [b]) == BitIn(BitsIn(r, p), b)
    decreases |p|
  {
    hide BitIn;
    if p != [] {
      assert (p + [b])[1..] == p[1..] + [b];
      BitsInSnoc(BitIn(r, p[0]), p[1..], b);
    }
  }

  lemma {:induction false} BitsInAppend(r: bv32, p: Poly, q: Poly)
    ensures BitsIn(r, p + q) == BitsIn(BitsIn(r, p), q)
    decreases |p|
  {
    hide BitIn;
    if p == [] {
      assert p + q == q;
    } else {
      assert (p + q)[1..] == p[1..] + q;
      BitsInAppend(BitIn(r, p[0]), p[1..], q);
    }
  }

  /** Flipping bits in at once and then stepping is taking them in one by one; higher bits move down. */
  lemma {:induction false} StepsFlip(r: bv32, x: bv32, k: nat)
    ensures Steps(Flip(r, x), k) == Flip(BitsIn(r, Bits(x, k)), Halves(x, k))
    decreases k
  {
    hide Low, Half, Flip, Step, BitIn;
    if k > 0 {
      StepsFlip(r, x, k - 1);
      LastBit(x, k - 1);
      BitsInSnoc(r, Bits(x, k - 1), Low(Halves(x, k - 1)));
      StepFlip(BitsIn(r, Bits(x, k - 1)), Halves(x, k - 1));
      HalvesSnoc(x, k - 1);
    }
  }

  lemma {:induction false} HalvesSnoc(r: bv32, k: nat)
    ensures Halves(r, k + 1) == Half(Halves(r, k))
    decreases k
  {
    hide Half;
    if k > 0 {
      HalvesSnoc(Half(r), k - 1);
    }
  }

  lemma ByteHalves(b: bv8)
    ensures Halves(b as bv32, 8) == 0
  {
    hide *;
    ByteShift(b);
    FourHalves(b as bv32, 4, (b as bv32) >> 4);
    FourHalves((b as bv32) >> 4, 0, 0);
    NoHalves(0);
  }

  lemma ByteShift(b: bv8)
    ensures ((b as bv32) >> 4) >> 4 == 0
  {
  }

  lemma AbsorbBits(r: bv32, b: bv8)
    ensures Absorb(r, b) == BitsIn(r, ByteBits(b))
  {
    hide Flip, Steps, BitsIn, Bits, Halves;
    StepsFlip(r, b as bv32, 8);
    ByteHalves(b);
    FlipLaws(BitsIn(r, Bits(b as bv32, 8)), 0, 0);
  }

  lemma {:induction false} RegisterBits(r: bv32, m: seq<bv8>)
    ensures Register(r, m) == BitsIn(r, MessageBits(m))
    decreases |m|
  {
    hide Absorb, BitIn, ByteBits;
    if m != [] {
      AbsorbBits(r, m[0]);
      RegisterBits(Absorb(r, m[0]), m[1..]);
      BitsInAppend(r, ByteBits(m[0]), MessageBits(m[1..]));
    }
  }

  // ----- the register divides -----

  lemma BitInBits(r: bv32, b: bool)
    ensures var f := Bits(r, 32)[0] != b; var s := Bits(r, 32)[1..] + [false];
      Bits(BitIn(r, b), 32) == if f then Sum(s, Generator()) else s
  {
    hide Low, Half, Flip, Generator, Step;
    StepBits(if b then Flip(r, 1) else r);
    FlipShift(r, 1);
    OneBit();
    FlipLaws(Half(r), 0, 0);
    assert Bits(Flip(r, 1), 32) == [Low(Flip(r, 1))] + Bits(Half(r), 31);
    assert Bits(r, 32) == [Low(r)] + Bits(Half(r), 31);
  }

  /** What is left to divide when the register holds r and the bits p are still to come. */
  function Left(s: Poly, p: Poly): (d: Poly)
    requires |s| == 32
    ensures |d| == |p| + 32
  {
    Sum(s + Nought(|p|), p + Nought(32))
  }

  lemma LeftStep(s: Poly, p: Poly, t: Poly)
    requires |s| == 32 && p != []
    requires t == if s[0] != p[0] then Sum(s[1..] + [false], Generator()) else s[1..] + [false]
    ensures Remainder(Left(s, p)) == Remainder(Left(t, p[1..]))
  {
    var d, e, n := Left(s, p), Left(t, p[1..]), |p| - 1;
    assert d[0] == (s[0] != p[0]);
    hide Remainder, Generator;
    var q := if d[0] then Sum(d[1..], Generator() + Nought(n)) else d[1..];
    assert |q| == |e|;
    assert q == e;
  }

  /** Division by the register, one bit after the other. */
  lemma {:induction false} Divides(r: bv32, p: Poly)
    ensures Remainder(Left(Bits(r, 32), p)) == Bits(BitsIn(r, p), 32)
    decreases |p|
  {
    hide BitIn, Bits, Generator;
    if p == [] {
      assert Left(Bits(r, 32), []) == Bits(r, 32);
    } else {
      BitInBits(r, p[0]);
      hide Remainder, Left;
      LeftStep(Bits(r, 32), p, Bits(BitIn(r, p[0]), 32));
      Divides(BitIn(r, p[0]), p[1..]);
    }
  }

  lemma AllOnes()
    ensures Bits(0xFFFF_FFFF, 32) == Ones(32)
  {
    hide *;
    NibbleBits(0xFFFF_FFFF, 28, 0xFFF_FFFF);
    NibbleBits(0xFFF_FFFF, 24, 0xFF_FFFF);
    NibbleBits(0xFF_FFFF, 20, 0xF_FFFF);
    NibbleBits(0xF_FFFF, 16, 0xFFFF);
    NibbleBits(0xFFFF, 12, 0xFFF);
    NibbleBits(0xFFF, 8, 0xFF);
    NibbleBits(0xFF, 4, 0xF);
    NibbleBits(0xF, 0, 0);
    NoBits(0);
    OnesAre(Bits(0xFFFF_FFFF, 32));
  }

  lemma OnesAre(p: Poly)
    requires |p| == 32 && forall i :: 0 <= i < 32 ==> p[i]
    ensures p == Ones(32)
  {
  }

  /** The register after a message holds the remainder of long division. */
  lemma RegisterDivides(m: seq<bv8>)
    ensures Bits(Register(0xFFFF_FFFF, m), 32) == Remainder(Dividend(m))
  {
    hide Register, Bits, BitsIn, Remainder, MessageBits;
    RegisterBits(0xFFFF_FFFF, m);
    Divides(0xFFFF_FFFF, MessageBits(m));
    AllOnes();
    assert Left(Ones(32), MessageBits(m)) == Dividend(m);
  }

  // ----- the code -----

  /** Continues the checksum c of what came before over m. */
  function Crc(c: bv32, m: seq<bv8>): bv32 {
    Flip(Register(Flip(c, 0xFFFF_FFFF), m), 0xFFFF_FFFF)
  }

  lemma SplitWord(y: bv32, lo: bv32, hi: bv32)
    requires lo == y & 0xFF && hi == y ^ lo
    ensures lo ^ hi == y && (lo as bv8) as bv32 == lo && (hi >> 4) >> 4 == y >> 8
    ensures hi & 1 == 0 && hi & 2 == 0 && hi & 4 == 0 && hi & 8 == 0
    ensures (hi >> 4) & 1 == 0 && (hi >> 4) & 2 == 0 && (hi >> 4) & 4 == 0 && (hi >> 4) & 8 == 0
  {
  }

  lemma ByteOff(c: bv32, b: bv8)
    ensures (c ^ (b as bv32)) >> 8 == c >> 8
  {
  }

  lemma AbsorbIs(c: bv32, b: bv8, y: bv32, lo: bv32, hi: bv32)
    requires y == c ^ (b as bv32) && lo ^ hi == y
    ensures Absorb(c, b) == Steps(Flip(lo, hi), 8)
  {
    hide Steps;
  }

  lemma ClearByte(hi: bv32, m: bv32, s: bv32)
    requires m == hi >> 4 && s == m >> 4 && hi & 1 == 0 && hi & 2 == 0 && hi & 4 == 0 && hi & 8 == 0
    requires m & 1 == 0 && m & 2 == 0 && m & 4 == 0 && m & 8 == 0
    ensures Bits(hi, 8) == [false, false, false, false, false, false, false, false] && Halves(hi, 8) == s
  {
    hide *;
    NibbleBits(hi, 4, m);
    NibbleBits(m, 0, s);
    NoBits(s);
    FourHalves(hi, 4, m);
    FourHalves(m, 0, s);
    NoHalves(s);
  }

  lemma StepsApart(lo: bv32, hi: bv32, s: bv32)
    requires Bits(hi, 8) == [false, false, false, false, false, false, false, false] && Halves(hi, 8) == s
    ensures Steps(Flip(lo, hi), 8) == Flip(Steps(lo, 8), s)
  {
    hide *;
    StepsFlip(lo, hi, 8);
    StepsFlip(lo, 0, 8);
    ClearByte(0, 0, 0);
    FlipLaws(lo, 0, 0);
    FlipLaws(BitsIn(lo, Bits(0, 8)), 0, 0);
  }

  lemma ClearWord(y: bv32, lo: bv32, hi: bv32, q: bv32)
    requires lo == y & 0xFF && hi == y ^ lo && q == y >> 8
    ensures Bits(hi, 8) == [false, false, false, false, false, false, false, false] && Halves(hi, 8) == q
  {
    hide *;
    SplitWord(y, lo, hi);
    var m: bv32 :| m == hi >> 4;
    ClearByte(hi, m, q);
  }

  lemma NarrowBack(y: bv32, lo: bv32, v: bv8)
    requires lo == y & 0xFF && v == lo as bv8
    ensures v as bv32 == lo
  {
  }

  lemma AbsorbSplit(c: bv32, b: bv8, y: bv32, lo: bv32, hi: bv32)
    requires y == c ^ (b as bv32) && lo == y & 0xFF && hi == y ^ lo
    ensures Absorb(c, b) == Steps(Flip(lo, hi), 8)
  {
    hide *;
    SplitWord(y, lo, hi);
    AbsorbIs(c, b, y, lo, hi);
  }

  lemma LookupParts(c: bv32, b: bv8, lo: bv32, hi: bv32, v: bv8, q: bv32)
    requires Absorb(c, b) == Steps(Flip(lo, hi), 8) && v as bv32 == lo
    requires Bits(hi, 8) == [false, false, false, false, false, false, false, false] && Halves(hi, 8) == q
    ensures Flip(q, Table(v)) == Absorb(c, b)
  {
    hide *;
    StepsApart(lo, hi, q);
    TableIs(v);
    FlipLaws(Steps(lo, 8), q, 0);
  }

  lemma LookupOf(c: bv32, b: bv8, y: bv32, v: bv8, q: bv32)
    requires y == c ^ (b as bv32) && v == (y & 0xFF) as bv8 && q == y >> 8
    ensures Flip(q, Table(v)) == Absorb(c, b)
  {
    hide *;
    var lo: bv32 :| lo == y & 0xFF;
    var hi: bv32 :| hi == y ^ lo;
    NarrowBack(y, lo, v);
    AbsorbSplit(c, b, y, lo, hi);
    ClearWord(y, lo, hi, q);
    LookupParts(c, b, lo, hi, v, q);
  }

  /** A table lookup does the work of eight steps. */
  lemma Lookup(c: bv32, b: bv8)
    ensures Flip(c >> 8, Table(((c ^ (b as bv32)) & 0xFF) as bv8)) == Absorb(c, b)
  {
    hide *;
    var y: bv32 :| y == c ^ (b as bv32);
    ByteOff(c, b);
    LookupOf(c, b, y, (y & 0xFF) as bv8, y >> 8);
  }

  /** One byte, as the code has it. */
  function Next(c: bv32, b: bv8): (d: bv32)
    ensures d == Absorb(c, b)
  {
    Lookup(c, b);
    Flip(c >> 8, Table(((c ^ (b as bv32)) & 0xFF) as bv8))
  }

  /** The checksum, four bytes a round and then one by one. */
  method Crc32(crc: bv32, ptr: seq<bv8>) returns (r: bv32)
    ensures r == Crc(crc, ptr)
  {
    hide *;
    var crc32 := Flip(crc, 0xFFFF_FFFF);
    var p, bufLen: nat := 0, |ptr|;
    assert ptr[0..] == ptr;
    while bufLen >= 4
      invariant p + bufLen == |ptr| && Register(crc32, ptr[p..]) == Register(Flip(crc, 0xFFFF_FFFF), ptr)
    {
      RegisterNext(crc32, ptr, p);
      crc32 := Next(crc32, ptr[p]);
      RegisterNext(crc32, ptr, p + 1);
      crc32 := Next(crc32, ptr[p + 1]);
      RegisterNext(crc32, ptr, p + 2);
      crc32 := Next(crc32, ptr[p + 2]);
      RegisterNext(crc32, ptr, p + 3);
      crc32 := Next(crc32, ptr[p + 3]);
      p := p + 4;
      bufLen := bufLen - 4;
    }
    while bufLen > 0
      invariant p + bufLen == |ptr| && Register(crc32, ptr[p..]) == Register(Flip(crc, 0xFFFF_FFFF), ptr)
    {
      RegisterNext(crc32, ptr, p);
      crc32 := Next(crc32, ptr[p]);
      p := p + 1;
      bufLen := bufLen - 1;
    }
    RegisterDone(crc32, ptr, p);
    CrcIs(crc, ptr);
    r := Flip(crc32, 0xFFFF_FFFF);
  }

  lemma RegisterNext(r: bv32, m: seq<bv8>, p: nat)
    requires p < |m|
    ensures Register(r, m[p..]) == Register(Absorb(r, m[p]), m[p + 1..])
  {
    hide Absorb;
    assert m[p..][1..] == m[p + 1..];
  }

  lemma RegisterDone(r: bv32, m: seq<bv8>, p: nat)
    requires p == |m|
    ensures Register(r, m[p..]) == r
  {
  }

  lemma CrcIs(c: bv32, m: seq<bv8>)
    ensures Crc(c, m) == Flip(Register(Flip(c, 0xFFFF_FFFF), m), 0xFFFF_FFFF)
  {
    hide Flip, Register;
  }

  // ----- what the checksum promises -----

  lemma {:induction false} RegisterAppend(r: bv32, a: seq<bv8>, b: seq<bv8>)
    ensures Register(r, a + b) == Register(Register(r, a), b)
    decreases |a|
  {
    hide Absorb;
    if a == [] {
      assert a + b == b;
    } else {
      assert (a + b)[1..] == a[1..] + b;
      RegisterAppend(Absorb(r, a[0]), a[1..], b);
    }
  }

  /** Checking a message in two pieces is checking it at once. */
  lemma CrcComposes(c: bv32, a: seq<bv8>, b: seq<bv8>)
    ensures Crc(Crc(c, a), b) == Crc(c, a + b)
  {
    hide Flip, Register;
    var r := Register(Flip(c, 0xFFFF_FFFF), a);
    FlipLaws(r, 0xFFFF_FFFF, 0xFFFF_FFFF);
    FlipLaws(r, 0, 0);
    FlipLaws(0xFFFF_FFFF, 0xFFFF_FFFF, 0);
    RegisterAppend(Flip(c, 0xFFFF_FFFF), a, b);
  }

  /** The checksum of a message, started with zero, is the complement of the remainder. */
  lemma CrcDivides(m: seq<bv8>)
    ensures Bits(Crc(0, m), 32) == Sum(Remainder(Dividend(m)), Ones(32))
  {
    hide Flip, Register, Bits, Remainder, Dividend, Ones, Sum;
    FlipLaws(0xFFFF_FFFF, 0, 0);
    FlipLaws(0, 0xFFFF_FFFF, 0);
    RegisterDivides(m);
    AllOnes();
    BitsSum(Register(0xFFFF_FFFF, m), 0xFFFF_FFFF, 32);
  }

  /** A step loses nothing: the generator's constant term shows in the highest bit. */
  lemma StepInjective(a: bv32, b: bv32)
    requires Step(a) == Step(b)
    ensures a == b
  {
  }

  lemma {:induction false} StepsInjective(a: bv32, b: bv32, n: nat)
    requires Steps(a, n) == Steps(b, n)
    ensures a == b
    decreases n
  {
    if n > 0 {
      StepInjective(Steps(a, n - 1), Steps(b, n - 1));
      hide Step;
      StepsInjective(a, b, n - 1);
    }
  }

  lemma FlipInjective(a: bv32, b: bv32, c: bv32)
    ensures Flip(a, c) == Flip(b, c) <==> a == b
    ensures Flip(c, a) == Flip(c, b) <==> a == b
  {
  }

  lemma {:induction false} BitsInInjective(a: bv32, b: bv32, p: Poly)
    requires BitsIn(a, p) == BitsIn(b, p)
    ensures a == b
    decreases |p|
  {
    hide Step, Flip;
    if p != [] {
      BitsInInjective(BitIn(a, p[0]), BitIn(b, p[0]), p[1..]);
      StepInjective(if p[0] then Flip(a, 1) else a, if p[0] then Flip(b, 1) else b);
      FlipInjective(a, b, 1);
    }
  }

  /** The word whose lowest bits are p. */
  function Packed(p: Poly): bv32
    decreases |p|
  {
    if p == [] then 0 else Push(Packed(p[1..]), p[0])
  }

  function Push(w: bv32, b: bool): bv32 {
    (w << 1) | (if b then 1 else 0)
  }

  lemma {:induction false} PackedBits(p: Poly)
    requires |p| <= 32
    ensures Bits(Packed(p), |p|) == p && Halves(Packed(p), |p|) == 0
    decreases |p|
  {
    hide Low, Half, Push;
    if p != [] {
      PackedBits(p[1..]);
      TopClear(Packed(p[1..]), |p| - 1);
      Pushed(Packed(p[1..]), p[0]);
    }
  }

  lemma {:induction false} HalvesZero(n: nat)
    ensures Halves(0, n) == 0
  {
    if n > 0 {
      ZeroHalf();
      HalvesZero(n - 1);
    }
  }

  lemma ZeroHalf()
    ensures Half(0) == 0
  {
  }

  lemma {:induction false} HalvesSum(r: bv32, m: nat, n: nat)
    ensures Halves(r, m + n) == Halves(Halves(r, m), n)
    decreases m
  {
    hide Half;
    if m > 0 {
      HalvesSum(Half(r), m - 1, n);
    }
  }

  /** A word of at most 31 bits leaves the highest bit clear. */
  lemma TopClear(w: bv32, n: nat)
    requires n <= 31 && Halves(w, n) == 0
    ensures w >> 31 == 0
  {
    hide *;
    HalvesSum(w, n, 31 - n);
    HalvesZero(31 - n);
    AllHalves(w);
  }

  lemma AllHalves(r: bv32)
    ensures Halves(r, 31) == r >> 31
  {
    hide *;
    FourHalves(r, 27, r >> 4);
    FourHalves(r >> 4, 23, r >> 8);
    FourHalves(r >> 8, 19, r >> 12);
    FourHalves(r >> 12, 15, r >> 16);
    FourHalves(r >> 16, 11, r >> 20);
    FourHalves(r >> 20, 7, r >> 24);
    FourHalves(r >> 24, 3, r >> 28);
    HalvesNext(r >> 28, 2, r >> 29);
    HalvesNext(r >> 29, 1, r >> 30);
    HalvesNext(r >> 30, 0, r >> 31);
    NoHalves(r >> 31);
  }

  lemma Pushed(w: bv32, b: bool)
    requires w >> 31 == 0
    ensures Low(Push(w, b)) == b && Half(Push(w, b)) == w
  {
  }

  /** Two bit strings of at most 32 bits that differ leave different registers. */
  lemma BurstShows(r: bv32, p: Poly, q: Poly)
    requires |p| == |q| <= 32 && BitsIn(r, p) == BitsIn(r, q)
    ensures p == q
  {
    hide *;
    var n, x, y := |p|, Packed(p), Packed(q);
    PackedBits(p);
    PackedBits(q);
    StepsFlip(r, x, n);
    StepsFlip(r, y, n);
    StepsInjective(Flip(r, x), Flip(r, y), n);
    FlipInjective(x, y, r);
  }

  /** Messages that differ only within 32 consecutive bits have different checksums. */
  lemma BurstDetected(c: bv32, a: seq<bv8>, b: seq<bv8>, before: Poly, p: Poly, q: Poly, after: Poly)
    requires MessageBits(a) == before + p + after && MessageBits(b) == before + q + after
    requires |p| == |q| <= 32 && p != q
    ensures Crc(c, a) != Crc(c, b)
  {
    hide *;
    var r := Flip(c, 0xFFFF_FFFF);
    RegisterBits(r, a);
    RegisterBits(r, b);
    BitsInAppend(r, before + p, after);
    BitsInAppend(r, before + q, after);
    BitsInAppend(r, before, p);
    BitsInAppend(r, before, q);
    CrcIs(c, a);
    CrcIs(c, b);
    if Crc(c, a) == Crc(c, b) {
      FlipInjective(Register(r, a), Register(r, b), 0xFFFF_FFFF);
      BitsInInjective(BitsIn(r, before + p), BitsIn(r, before + q), after);
      BurstShows(BitsIn(r, before), p, q);
    }
  }
}
