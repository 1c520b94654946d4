/** What FIPS 197 says of its tables, and the example of its appendix C.3. */
module AesExample {
  import opened GaloisField
  import opened Aes
  import opened AesInPlace

  // ----- the substitution, section 5.1.1 -----

  /** Rotation to the left. */
  function Rotl(y: bv8, k: nat): bv8
    requires k <= 8
  {
    (y << k) | (y >> (8 - k))
  }

  /** The product, term by term. */
  function Terms(x: bv8, y: bv8): bv8 {
    var x1 := Xtime(x);
    var x2 := Xtime(x1);
    var x3 := Xtime(x2);
    var x4 := Xtime(x3);
    var x5 := Xtime(x4);
    var x6 := Xtime(x5);
    Xor(Times(x, y & 1 != 0), Xor(Times(x1, y & 2 != 0), Xor(Times(x2, y & 4 != 0), Xor(Times(x3, y & 8 != 0),
    Xor(Times(x4, y & 16 != 0), Xor(Times(x5, y & 32 != 0), Xor(Times(x6, y & 64 != 0),
    Times(Xtime(x6), y & 128 != 0))))))))
  }

  lemma AllBits(y: bv8)
    ensures (y >> 1) & 1 != 0 <==> y & 2 != 0
    ensures (y >> 1 >> 1) & 1 != 0 <==> y & 4 != 0
    ensures (y >> 1 >> 1 >> 1) & 1 != 0 <==> y & 8 != 0
    ensures (y >> 1 >> 1 >> 1 >> 1) & 1 != 0 <==> y & 16 != 0
    ensures (y >> 1 >> 1 >> 1 >> 1 >> 1) & 1 != 0 <==> y & 32 != 0
    ensures (y >> 1 >> 1 >> 1 >> 1 >> 1 >> 1) & 1 != 0 <==> y & 64 != 0
    ensures (y >> 1 >> 1 >> 1 >> 1 >> 1 >> 1 >> 1) & 1 != 0 <==> y & 128 != 0
    ensures y >> 1 >> 1 >> 1 >> 1 >> 1 >> 1 >> 1 >> 1 == 0
  {
  }

  lemma ProductIs(x: bv8, y: bv8)
    ensures Product(x, y) == Terms(x, y)
  {
    hide Xtime, Product, Xor, Times;
    var x1 := Xtime(x);
    var x2 := Xtime(x1);
    var x3 := Xtime(x2);
    var x4 := Xtime(x3);
    var x5 := Xtime(x4);
    var x6 := Xtime(x5);
    var x7 := Xtime(x6);
    var y1 := y >> 1;
    var y2 := y1 >> 1;
    var y3 := y2 >> 1;
    var y4 := y3 >> 1;
    var y5 := y4 >> 1;
    var y6 := y5 >> 1;
    AllBits(y);
    ProductAlways(x, y);
    ProductAlways(x1, y1);
    ProductAlways(x2, y2);
    ProductAlways(x3, y3);
    ProductAlways(x4, y4);
    ProductAlways(x5, y5);
    ProductAlways(x6, y6);
    ProductAlways(x7, y6 >> 1);
    ProductZero(Xtime(x7));
    XorNothing(Times(x7, y & 128 != 0));
  }

  /** The byte whose image under the affine map is b. */
  function Undone(b: bv8): bv8 {
    Rotl(b, 1) ^ Rotl(b, 3) ^ Rotl(b, 6) ^ 0x05
  }

  lemma AffineBack(b: bv8)
    ensures var y := Undone(b);
      b == y ^ Rotl(y, 1) ^ Rotl(y, 2) ^ Rotl(y, 3) ^ Rotl(y, 4) ^ 0x63
  {
  }

  lemma InverseHere(x: bv8)
    requires x != 0
    ensures Terms(x, Undone(Sbox(x))) == 1
  {
  }

  /** Every byte but 0 has an inverse in the field; the entry is its image under the affine map, and that of 0 for 0. */
  lemma SboxIs(x: bv8) returns (y: bv8)
    ensures if x == 0 then y == 0 else Product(x, y) == 1
    ensures Sbox(x) == y ^ Rotl(y, 1) ^ Rotl(y, 2) ^ Rotl(y, 3) ^ Rotl(y, 4) ^ 0x63
  {
    y := Undone(Sbox(x));
    AffineBack(Sbox(x));
    if x == 0 {
      assert Sbox(0) == 0x63;
    } else {
      InverseHere(x);
      ProductIs(x, y);
    }
  }

  /** The round constants are the powers of x, section 5.2. */
  lemma RconIs(i: nat)
    requires 1 <= i < 11
    ensures Rcon(1) == 1 && (i < 10 ==> Rcon(i + 1) == Product(Rcon(i), 2))
  {
    hide Product;
    SmallProducts(Rcon(i));
  }

  // ----- the example of appendix C.3, a round at a time -----

  /** Sixteen bytes, written out. */
  predicate Are(b: Block, b0: bv8, b1: bv8, b2: bv8, b3: bv8, b4: bv8, b5: bv8, b6: bv8, b7: bv8, b8: bv8, b9: bv8,
                b10: bv8, b11: bv8, b12: bv8, b13: bv8, b14: bv8, b15: bv8)
  {
    && b[0] == b0 && b[1] == b1 && b[2] == b2 && b[3] == b3 && b[4] == b4 && b[5] == b5 && b[6] == b6 && b[7] == b7
    && b[8] == b8 && b[9] == b9 && b[10] == b10 && b[11] == b11 && b[12] == b12 && b[13] == b13 && b[14] == b14
    && b[15] == b15
  }

  /** A mixed byte, with the key's. */
  function Blend(a: bv8, b: bv8, c: bv8, d: bv8, k: bv8): bv8 {
    Xtime(a) ^ (Xtime(b) ^ b) ^ c ^ d ^ k
  }

  lemma MixedIs(a: bv8, b: bv8, c: bv8, d: bv8, k: bv8)
    ensures Xor(Mixed(a, b, c, d), k) == Blend(a, b, c, d, k)
  {
    hide Xtime, Product;
    SmallProducts(a);
    SmallProducts(b);
    assert b ^ Xtime(b) == Xtime(b) ^ b;
  }

  /** What the shift of the rows brings to a column. */
  lemma ShiftedColumn(s: Block, n: nat)
    requires n < 4
    ensures var v := ShiftRows(s);
      && v[4 * n] == s[4 * n] && v[4 * n + 1] == s[(4 * n + 5) % 16] && v[4 * n + 2] == s[(4 * n + 10) % 16]
      && v[4 * n + 3] == s[(4 * n + 15) % 16]
  {
    match n
    case 0 =>
    case 1 =>
    case 2 =>
    case _ =>
  }

  /** The state after a round. */
  function After(s: Block, k: Block): Block {
    XorBlocks(MixColumns(ShiftRows(SubBytes(s))), k)
  }

  lemma XorAt(s: Block, k: Block, i: nat)
    requires i < 16
    ensures XorBlocks(s, k)[i] == Xor(s[i], k[i])
  {
    hide Xor;
  }

  lemma AfterIs(s: Block, k: Block)
    ensures After(s, k) == XorBlocks(MixColumns(ShiftRows(SubBytes(s))), k)
  {
    hide XorBlocks, MixColumns, ShiftRows, SubBytes;
  }

  lemma SubstitutedColumn(s: Block, n: nat)
    requires n < 4
    ensures var v := ShiftRows(SubBytes(s));
      && v[4 * n] == Sbox(s[4 * n]) && v[4 * n + 1] == Sbox(s[(4 * n + 5) % 16])
      && v[4 * n + 2] == Sbox(s[(4 * n + 10) % 16]) && v[4 * n + 3] == Sbox(s[(4 * n + 15) % 16])
  {
    hide Sbox, ShiftRows;
    ShiftedColumn(SubBytes(s), n);
  }

  lemma MixedColumn(v: Block, k: Block, n: nat, p: bv8, q: bv8, r: bv8, t: bv8)
    requires n < 4 && v[4 * n] == p && v[4 * n + 1] == q && v[4 * n + 2] == r && v[4 * n + 3] == t
    ensures var x := XorBlocks(MixColumns(v), k);
      && x[4 * n] == Blend(p, q, r, t, k[4 * n])
      && x[4 * n + 1] == Blend(q, r, t, p, k[4 * n + 1])
      && x[4 * n + 2] == Blend(r, t, p, q, k[4 * n + 2])
      && x[4 * n + 3] == Blend(t, p, q, r, k[4 * n + 3])
  {
    hide *;
    MixedNext(v, n);
    var m := MixColumns(v);
    XorAt(m, k, 4 * n);
    XorAt(m, k, 4 * n + 1);
    XorAt(m, k, 4 * n + 2);
    XorAt(m, k, 4 * n + 3);
    MixedIs(p, q, r, t, k[4 * n]);
    MixedIs(q, r, t, p, k[4 * n + 1]);
    MixedIs(r, t, p, q, k[4 * n + 2]);
    MixedIs(t, p, q, r, k[4 * n + 3]);
  }

  /** A column of it, from the bytes a, b, c and d of the state before; substituted they are p, q, r and t. */
  lemma ColumnAfter(s: Block, k: Block, n: nat, a: bv8, b: bv8, c: bv8, d: bv8, p: bv8, q: bv8, r: bv8,
                    t: bv8)
    requires n < 4
    requires s[4 * n] == a && s[(4 * n + 5) % 16] == b && s[(4 * n + 10) % 16] == c && s[(4 * n + 15) % 16] == d
    requires Sbox(a) == p && Sbox(b) == q && Sbox(c) == r && Sbox(d) == t
    ensures After(s, k)[4 * n] == Blend(p, q, r, t, k[4 * n])
    ensures After(s, k)[4 * n + 1] == Blend(q, r, t, p, k[4 * n + 1])
    ensures After(s, k)[4 * n + 2] == Blend(r, t, p, q, k[4 * n + 2])
    ensures After(s, k)[4 * n + 3] == Blend(t, p, q, r, k[4 * n + 3])
  {
    hide *;
    SubstitutedColumn(s, n);
    MixedColumn(ShiftRows(SubBytes(s)), k, n, p, q, r, t);
    AfterIs(s, k);
  }

  lemma Round1(s: Block, k: Block)
    requires Are(s, 0x00, 0x10, 0x20, 0x30, 0x40, 0x50, 0x60, 0x70, 0x80, 0x90, 0xa0, 0xb0, 0xc0, 0xd0, 0xe0, 0xf0)
    requires Are(k, 0x10, 0x11, 0x12, 0x13, 0x14, 0x15, 0x16, 0x17, 0x18, 0x19, 0x1a, 0x1b, 0x1c, 0x1d, 0x1e, 0x1f)
    ensures Are(After(s, k), 0x4f, 0x63, 0x76, 0x06, 0x43, 0xe0, 0xaa, 0x85,
                0xef, 0xa7, 0x21, 0x32, 0x01, 0xa4, 0xe7, 0x05)
  {
    hide After;
    ColumnAfter(s, k, 0, 0x00, 0x50, 0xa0, 0xf0, 0x63, 0x53, 0xe0, 0x8c);
    ColumnAfter(s, k, 1, 0x40, 0x90, 0xe0, 0x30, 0x09, 0x60, 0xe1, 0x04);
    ColumnAfter(s, k, 2, 0x80, 0xd0, 0x20, 0x70, 0xcd, 0x70, 0xb7, 0x51);
    ColumnAfter(s, k, 3, 0xc0, 0x10, 0x60, 0xb0, 0xba, 0xca, 0xd0, 0xe7);
  }

  lemma Round2(s: Block, k: Block)
    requires Are(s, 0x4f, 0x63, 0x76, 0x06, 0x43, 0xe0, 0xaa, 0x85, 0xef, 0xa7, 0x21, 0x32, 0x01, 0xa4, 0xe7, 0x05)
    requires Are(k, 0xa5, 0x73, 0xc2, 0x9f, 0xa1, 0x76, 0xc4, 0x98, 0xa9, 0x7f, 0xce, 0x93, 0xa5, 0x72, 0xc0, 0x9c)
    ensures Are(After(s, k), 0x18, 0x59, 0xfb, 0xc2, 0x8a, 0x1c, 0x00, 0xa0,
                0x78, 0xed, 0x8a, 0xad, 0xc4, 0x2f, 0x61, 0x09)
  {
    hide After;
    ColumnAfter(s, k, 0, 0x4f, 0xe0, 0x21, 0x05, 0x84, 0xe1, 0xfd, 0x6b);
    ColumnAfter(s, k, 1, 0x43, 0xa7, 0xe7, 0x06, 0x1a, 0x5c, 0x94, 0x6f);
    ColumnAfter(s, k, 2, 0xef, 0xa4, 0x76, 0x85, 0xdf, 0x49, 0x38, 0x97);
    ColumnAfter(s, k, 3, 0x01, 0x63, 0xaa, 0x32, 0x7c, 0xfb, 0xac, 0x23);
  }

  lemma Round3(s: Block, k: Block)
    requires Are(s, 0x18, 0x59, 0xfb, 0xc2, 0x8a, 0x1c, 0x00, 0xa0, 0x78, 0xed, 0x8a, 0xad, 0xc4, 0x2f, 0x61, 0x09)
    requires Are(k, 0x16, 0x51, 0xa8, 0xcd, 0x02, 0x44, 0xbe, 0xda, 0x1a, 0x5d, 0xa4, 0xc1, 0x06, 0x40, 0xba, 0xde)
    ensures Are(After(s, k), 0x97, 0x5c, 0x66, 0xc1, 0xcb, 0x9f, 0x3f, 0xa8,
                0xa9, 0x3a, 0x28, 0xdf, 0x8e, 0xe1, 0x0f, 0x63)
  {
    hide After;
    ColumnAfter(s, k, 0, 0x18, 0x1c, 0x8a, 0x09, 0xad, 0x9c, 0x7e, 0x01);
    ColumnAfter(s, k, 1, 0x8a, 0xed, 0x61, 0xc2, 0x7e, 0x55, 0xef, 0x25);
    ColumnAfter(s, k, 2, 0x78, 0x2f, 0xfb, 0xa0, 0xbc, 0x15, 0x0f, 0xe0);
    ColumnAfter(s, k, 3, 0xc4, 0x59, 0x00, 0xad, 0x1c, 0xcb, 0x63, 0x95);
  }

  lemma Round4(s: Block, k: Block)
    requires Are(s, 0x97, 0x5c, 0x66, 0xc1, 0xcb, 0x9f, 0x3f, 0xa8, 0xa9, 0x3a, 0x28, 0xdf, 0x8e, 0xe1, 0x0f, 0x63)
    requires Are(k, 0xae, 0x87, 0xdf, 0xf0, 0x0f, 0xf1, 0x1b, 0x68, 0xa6, 0x8e, 0xd5, 0xfb, 0x03, 0xfc, 0x15, 0x67)
    ensures Are(After(s, k), 0x1c, 0x05, 0xf2, 0x71, 0xa4, 0x17, 0xe0, 0x4f,
                0xf9, 0x21, 0xc5, 0xc1, 0x04, 0x70, 0x15, 0x54)
  {
    hide After;
    ColumnAfter(s, k, 0, 0x97, 0x9f, 0x28, 0x63, 0x88, 0xdb, 0x34, 0xfb);
    ColumnAfter(s, k, 1, 0xcb, 0x3a, 0x0f, 0xc1, 0x1f, 0x80, 0x76, 0x78);
    ColumnAfter(s, k, 2, 0xa9, 0xe1, 0x66, 0xa8, 0xd3, 0xf8, 0x33, 0xc2);
    ColumnAfter(s, k, 3, 0x8e, 0x5c, 0x3f, 0xdf, 0x19, 0x4a, 0x75, 0x9e);
  }

  lemma Round5(s: Block, k: Block)
    requires Are(s, 0x1c, 0x05, 0xf2, 0x71, 0xa4, 0x17, 0xe0, 0x4f, 0xf9, 0x21, 0xc5, 0xc1, 0x04, 0x70, 0x15, 0x54)
    requires Are(k, 0x6d, 0xe1, 0xf1, 0x48, 0x6f, 0xa5, 0x4f, 0x92, 0x75, 0xf8, 0xeb, 0x53, 0x73, 0xb8, 0x51, 0x8d)
    ensures Are(After(s, k), 0xc3, 0x57, 0xaa, 0xe1, 0x1b, 0x45, 0xb7, 0xb0,
                0xa2, 0xc7, 0xbd, 0x28, 0xa8, 0xdc, 0x99, 0xfa)
  {
    hide After;
    ColumnAfter(s, k, 0, 0x1c, 0x17, 0xc5, 0x54, 0x9c, 0xf0, 0xa6, 0x20);
    ColumnAfter(s, k, 1, 0xa4, 0x21, 0x15, 0x71, 0x49, 0xfd, 0x59, 0xa3);
    ColumnAfter(s, k, 2, 0xf9, 0x70, 0xf2, 0x4f, 0x99, 0x51, 0x89, 0x84);
    ColumnAfter(s, k, 3, 0x04, 0x05, 0xe0, 0xc1, 0xf2, 0x6b, 0xe1, 0x78);
  }

  lemma Round6(s: Block, k: Block)
    requires Are(s, 0xc3, 0x57, 0xaa, 0xe1, 0x1b, 0x45, 0xb7, 0xb0, 0xa2, 0xc7, 0xbd, 0x28, 0xa8, 0xdc, 0x99, 0xfa)
    requires Are(k, 0xc6, 0x56, 0x82, 0x7f, 0xc9, 0xa7, 0x99, 0x17, 0x6f, 0x29, 0x4c, 0xec, 0x6c, 0xd5, 0x59, 0x8b)
    ensures Are(After(s, k), 0x7f, 0x07, 0x41, 0x43, 0xcb, 0x4e, 0x24, 0x3e,
                0xc1, 0x0c, 0x81, 0x5d, 0x83, 0x75, 0xd5, 0x4c)
  {
    hide After;
    ColumnAfter(s, k, 0, 0xc3, 0x45, 0xbd, 0xfa, 0x2e, 0x6e, 0x7a, 0x2d);
    ColumnAfter(s, k, 1, 0x1b, 0xc7, 0x99, 0xe1, 0xaf, 0xc6, 0xee, 0xf8);
    ColumnAfter(s, k, 2, 0xa2, 0xdc, 0xaa, 0xb0, 0x3a, 0x86, 0xac, 0xe7);
    ColumnAfter(s, k, 3, 0xa8, 0x57, 0xb7, 0x28, 0xc2, 0x5b, 0xa9, 0x34);
  }

  lemma Round7(s: Block, k: Block)
    requires Are(s, 0x7f, 0x07, 0x41, 0x43, 0xcb, 0x4e, 0x24, 0x3e, 0xc1, 0x0c, 0x81, 0x5d, 0x83, 0x75, 0xd5, 0x4c)
    requires Are(k, 0x3d, 0xe2, 0x3a, 0x75, 0x52, 0x47, 0x75, 0xe7, 0x27, 0xbf, 0x9e, 0xb4, 0x54, 0x07, 0xcf, 0x39)
    ensures Are(After(s, k), 0xd6, 0x53, 0xa4, 0x69, 0x6c, 0xa0, 0xbc, 0x0f,
                0x5a, 0xca, 0xab, 0x5d, 0xb9, 0x6c, 0x5e, 0x7d)
  {
    hide After;
    ColumnAfter(s, k, 0, 0x7f, 0x4e, 0x81, 0x4c, 0xd2, 0x2f, 0x0c, 0x29);
    ColumnAfter(s, k, 1, 0xcb, 0x0c, 0xd5, 0x43, 0x1f, 0xfe, 0x03, 0x1a);
    ColumnAfter(s, k, 2, 0xc1, 0x75, 0x41, 0x3e, 0x78, 0x9d, 0x83, 0xb2);
    ColumnAfter(s, k, 3, 0x83, 0x07, 0x24, 0x5d, 0xec, 0xc5, 0x36, 0x4c);
  }

  lemma Round8(s: Block, k: Block)
    requires Are(s, 0xd6, 0x53, 0xa4, 0x69, 0x6c, 0xa0, 0xbc, 0x0f, 0x5a, 0xca, 0xab, 0x5d, 0xb9, 0x6c, 0x5e, 0x7d)
    requires Are(k, 0x0b, 0xdc, 0x90, 0x5f, 0xc2, 0x7b, 0x09, 0x48, 0xad, 0x52, 0x45, 0xa4, 0xc1, 0x87, 0x1c, 0x2f)
    ensures Are(After(s, k), 0x5a, 0xa8, 0x58, 0x39, 0x5f, 0xd2, 0x8d, 0x7d,
                0x05, 0xe1, 0xa3, 0x88, 0x68, 0xf3, 0xb9, 0xc5)
  {
    hide After;
    ColumnAfter(s, k, 0, 0xd6, 0xa0, 0xab, 0x7d, 0xf6, 0xe0, 0x62, 0xff);
    ColumnAfter(s, k, 1, 0x6c, 0xca, 0x5e, 0x69, 0x50, 0x74, 0x58, 0xf9);
    ColumnAfter(s, k, 2, 0x5a, 0x6c, 0xa4, 0x0f, 0xbe, 0x50, 0x49, 0x76);
    ColumnAfter(s, k, 3, 0xb9, 0x53, 0xbc, 0x5d, 0x56, 0xed, 0x65, 0x4c);
  }

  lemma Round9(s: Block, k: Block)
    requires Are(s, 0x5a, 0xa8, 0x58, 0x39, 0x5f, 0xd2, 0x8d, 0x7d, 0x05, 0xe1, 0xa3, 0x88, 0x68, 0xf3, 0xb9, 0xc5)
    requires Are(k, 0x45, 0xf5, 0xa6, 0x60, 0x17, 0xb2, 0xd3, 0x87, 0x30, 0x0d, 0x4d, 0x33, 0x64, 0x0a, 0x82, 0x0a)
    ensures Are(After(s, k), 0x4a, 0x82, 0x48, 0x51, 0xc5, 0x7e, 0x7e, 0x47,
                0x64, 0x3d, 0xe5, 0x0c, 0x2a, 0xf3, 0xe8, 0xc9)
  {
    hide After;
    ColumnAfter(s, k, 0, 0x5a, 0xd2, 0xa3, 0xc5, 0xbe, 0xb5, 0x0a, 0xa6);
    ColumnAfter(s, k, 1, 0x5f, 0xe1, 0xb9, 0x39, 0xcf, 0xf8, 0x56, 0x12);
    ColumnAfter(s, k, 2, 0x05, 0xf3, 0x58, 0x7d, 0x6b, 0x0d, 0x6a, 0xff);
    ColumnAfter(s, k, 3, 0x68, 0xa8, 0x8d, 0x88, 0x45, 0xc2, 0x5d, 0xc4);
  }

  lemma Round10(s: Block, k: Block)
    requires Are(s, 0x4a, 0x82, 0x48, 0x51, 0xc5, 0x7e, 0x7e, 0x47, 0x64, 0x3d, 0xe5, 0x0c, 0x2a, 0xf3, 0xe8, 0xc9)
    requires Are(k, 0x7c, 0xcf, 0xf7, 0x1c, 0xbe, 0xb4, 0xfe, 0x54, 0x13, 0xe6, 0xbb, 0xf0, 0xd2, 0x61, 0xa7, 0xdf)
    ensures Are(After(s, k), 0xc1, 0x49, 0x07, 0xf6, 0xca, 0x3b, 0x3a, 0xa0,
                0x70, 0xe9, 0xaa, 0x31, 0x3b, 0x52, 0xb5, 0xec)
  {
    hide After;
    ColumnAfter(s, k, 0, 0x4a, 0x7e, 0xe5, 0xc9, 0xd6, 0xf3, 0xd9, 0xdd);
    ColumnAfter(s, k, 1, 0xc5, 0x3d, 0xe8, 0x51, 0xa6, 0x27, 0x9b, 0xd1);
    ColumnAfter(s, k, 2, 0x64, 0xf3, 0x48, 0x47, 0x43, 0x0d, 0x52, 0xa0);
    ColumnAfter(s, k, 3, 0x2a, 0x82, 0x7e, 0x0c, 0xe5, 0x13, 0xf3, 0xfe);
  }

  lemma Round11(s: Block, k: Block)
    requires Are(s, 0xc1, 0x49, 0x07, 0xf6, 0xca, 0x3b, 0x3a, 0xa0, 0x70, 0xe9, 0xaa, 0x31, 0x3b, 0x52, 0xb5, 0xec)
    requires Are(k, 0xf0, 0x1a, 0xfa, 0xfe, 0xe7, 0xa8, 0x29, 0x79, 0xd7, 0xa5, 0x64, 0x4a, 0xb3, 0xaf, 0xe6, 0x40)
    ensures Are(After(s, k), 0x5f, 0x9c, 0x6a, 0xbf, 0xba, 0xc6, 0x34, 0xaa,
                0x50, 0x40, 0x9f, 0xa7, 0x66, 0x67, 0x76, 0x53)
  {
    hide After;
    ColumnAfter(s, k, 0, 0xc1, 0x3b, 0xaa, 0xec, 0x78, 0xe2, 0xac, 0xce);
    ColumnAfter(s, k, 1, 0xca, 0xe9, 0xb5, 0xf6, 0x74, 0x1e, 0xd5, 0x42);
    ColumnAfter(s, k, 2, 0x70, 0x52, 0x07, 0xa0, 0x51, 0x00, 0xc5, 0xe0);
    ColumnAfter(s, k, 3, 0x3b, 0x49, 0x3a, 0x31, 0xe2, 0x3b, 0x80, 0xc7);
  }

  lemma Round12(s: Block, k: Block)
    requires Are(s, 0x5f, 0x9c, 0x6a, 0xbf, 0xba, 0xc6, 0x34, 0xaa, 0x50, 0x40, 0x9f, 0xa7, 0x66, 0x67, 0x76, 0x53)
    requires Are(k, 0x25, 0x41, 0xfe, 0x71, 0x9b, 0xf5, 0x00, 0x25, 0x88, 0x13, 0xbb, 0xd5, 0x5a, 0x72, 0x1c, 0x0a)
    ensures Are(After(s, k), 0x51, 0x66, 0x04, 0x95, 0x43, 0x53, 0x95, 0x03,
                0x14, 0xfb, 0x86, 0xe4, 0x01, 0x92, 0x25, 0x21)
  {
    hide After;
    ColumnAfter(s, k, 0, 0x5f, 0xc6, 0x9f, 0x53, 0xcf, 0xb4, 0xdb, 0xed);
    ColumnAfter(s, k, 1, 0xba, 0x40, 0x76, 0xbf, 0xf4, 0x09, 0x38, 0x08);
    ColumnAfter(s, k, 2, 0x50, 0x67, 0x6a, 0xaa, 0x53, 0x85, 0x02, 0xac);
    ColumnAfter(s, k, 3, 0x66, 0x9c, 0x34, 0xa7, 0x33, 0xde, 0x18, 0x5c);
  }

  lemma Round13(s: Block, k: Block)
    requires Are(s, 0x51, 0x66, 0x04, 0x95, 0x43, 0x53, 0x95, 0x03, 0x14, 0xfb, 0x86, 0xe4, 0x01, 0x92, 0x25, 0x21)
    requires Are(k, 0x4e, 0x5a, 0x66, 0x99, 0xa9, 0xf2, 0x4f, 0xe0, 0x7e, 0x57, 0x2b, 0xaa, 0xcd, 0xf8, 0xcd, 0xea)
    ensures Are(After(s, k), 0x62, 0x7b, 0xce, 0xb9, 0x99, 0x9d, 0x5a, 0xaa,
                0xc9, 0x45, 0xec, 0xf4, 0x23, 0xf5, 0x6d, 0xa5)
  {
    hide After;
    ColumnAfter(s, k, 0, 0x51, 0x53, 0x86, 0x21, 0xd1, 0xed, 0x44, 0xfd);
    ColumnAfter(s, k, 1, 0x43, 0xfb, 0x25, 0x95, 0x1a, 0x0f, 0x3f, 0x2a);
    ColumnAfter(s, k, 2, 0x14, 0x92, 0x04, 0x03, 0xfa, 0x4f, 0xf2, 0x7b);
    ColumnAfter(s, k, 3, 0x01, 0x66, 0x95, 0xe4, 0x7c, 0x33, 0x2a, 0x69);
  }

  // ----- its key schedule -----

  /** What is added to the first word of the key two rounds back: the last word of the key v, substituted. */
  function Turned(v: Block, round: nat, j: nat): bv8
    requires round < 22 && j < 4
  {
    if round % 2 == 0 then Sbox(v[12 + (j + 1) % 4]) ^ (if j == 0 then Rcon(round / 2) else 0) else Sbox(v[12 + j])
  }

  lemma WordByte(key: seq<bv8>, i: nat, j: nat)
    requires |key| == 32 && 8 <= i < 60 && j < 4
    ensures var w := Expanded(key);
      w[4 * i + j] == Xor(w[4 * i - 32 + j], Temp(w[4 * i - 4..4 * i], i)[j])
  {
    hide Temp, Expanded, Xor;
    var w := Expanded(key);
    WordIs(key, i);
    assert w[4 * i + j] == w[4 * i..4 * i + 4][j];
    assert w[4 * i - 32 + j] == w[4 * i - 32..4 * i - 28][j];
  }

  lemma TempCases(t: seq<bv8>, i: nat, c: nat)
    requires |t| == 4 && i < 60
    ensures i % 8 == 0 && c == i / 8 ==>
      Temp(t, i) == [Sbox(t[1]) ^ Rcon(c), Sbox(t[2]), Sbox(t[3]), Sbox(t[0])]
    ensures i % 8 == 4 ==> Temp(t, i) == [Sbox(t[0]), Sbox(t[1]), Sbox(t[2]), Sbox(t[3])]
    ensures i % 8 != 0 && i % 8 != 4 ==> Temp(t, i) == t
  {
    hide Sbox, Rcon;
  }

  lemma WordNumber(round: nat, n: nat)
    requires n < 4
    ensures (4 * round + n) % 8 == (if round % 2 == 0 then n else 4 + n)
    ensures (4 * round + n) / 8 == round / 2
  {
  }

  lemma TurnedCases(v: Block, round: nat)
    requires round < 22
    ensures round % 2 == 0 ==>
      && Turned(v, round, 0) == Sbox(v[13]) ^ Rcon(round / 2) && Turned(v, round, 1) == Sbox(v[14])
      && Turned(v, round, 2) == Sbox(v[15]) && Turned(v, round, 3) == Sbox(v[12])
    ensures round % 2 == 1 ==>
      && Turned(v, round, 0) == Sbox(v[12]) && Turned(v, round, 1) == Sbox(v[13])
      && Turned(v, round, 2) == Sbox(v[14]) && Turned(v, round, 3) == Sbox(v[15])
  {
    hide Sbox, Rcon;
  }

  /** What is added to a word, byte by byte. */
  lemma TempByte(t: seq<bv8>, v: Block, round: nat, n: nat, j: nat)
    requires |t| == 4 && n < 4 && j < 4 && 2 <= round < 15
    requires n == 0 ==> t[0] == v[12] && t[1] == v[13] && t[2] == v[14] && t[3] == v[15]
    ensures Temp(t, 4 * round + n)[j] == if n == 0 then Turned(v, round, j) else t[j]
  {
    hide Sbox, Rcon, Temp, Turned;
    WordNumber(round, n);
    TempCases(t, 4 * round + n, round / 2);
    TurnedCases(v, round);
  }

  /** A byte of a round's key, from the two keys before. */
  lemma KeyByte(key: seq<bv8>, u: Block, v: Block, k: Block, round: nat, n: nat, j: nat)
    requires |key| == 32 && 2 <= round < 15 && n < 4 && j < 4
    requires var w := Expanded(key);
      u == RoundKey(w, round - 2) && v == RoundKey(w, round - 1) && k == RoundKey(w, round)
    ensures k[4 * n + j] == Xor(u[4 * n + j], if n == 0 then Turned(v, round, j) else k[4 * n + j - 4])
  {
    hide Temp, Expanded, Xor, Turned;
    var w := Expanded(key);
    var i := 4 * round + n;
    WordByte(key, i, j);
    var t := w[4 * i - 4..4 * i];
    TempByte(t, v, round, n, j);
  }

  /** The keys of three rounds, one after the other. */
  ghost predicate KeysAre(key: seq<bv8>, round: nat, u: Block, v: Block, k: Block)
    requires |key| == 32 && 2 <= round < 15
  {
    var w := Expanded(key);
    u == RoundKey(w, round - 2) && v == RoundKey(w, round - 1) && k == RoundKey(w, round)
  }

  lemma LaterWords(key: seq<bv8>, u: Block, v: Block, k: Block, round: nat)
    requires |key| == 32 && 2 <= round < 15 && KeysAre(key, round, u, v, k)
    ensures forall n :: 4 <= n < 16 ==> k[n] == u[n] ^ k[n - 4]
  {
    hide Expanded, Turned, RoundKey;
    forall n | 4 <= n < 16 ensures k[n] == u[n] ^ k[n - 4] {
      KeyByte(key, u, v, k, round, n / 4, n % 4);
    }
  }

  lemma FirstWord(key: seq<bv8>, u: Block, v: Block, k: Block, round: nat)
    requires |key| == 32 && 2 <= round < 15 && KeysAre(key, round, u, v, k)
    ensures k[0] == Xor(u[0], Turned(v, round, 0)) && k[1] == Xor(u[1], Turned(v, round, 1))
    ensures k[2] == Xor(u[2], Turned(v, round, 2)) && k[3] == Xor(u[3], Turned(v, round, 3))
  {
    hide Expanded, Turned, RoundKey, Xor;
    KeyByte(key, u, v, k, round, 0, 0);
    KeyByte(key, u, v, k, round, 0, 1);
    KeyByte(key, u, v, k, round, 0, 2);
    KeyByte(key, u, v, k, round, 0, 3);
  }

  /** A round's key from the two before: a, b, c and d are the last bytes of v; substituted they are p, q, r and t. */
  lemma KeyAfter(key: seq<bv8>, u: Block, v: Block, k: Block, round: nat, a: bv8, b: bv8, c: bv8, d: bv8, p: bv8,
                 q: bv8, r: bv8, t: bv8)
    requires |key| == 32 && 2 <= round < 15 && KeysAre(key, round, u, v, k)
    requires v[12] == a && v[13] == b && v[14] == c && v[15] == d
    requires Sbox(a) == p && Sbox(b) == q && Sbox(c) == r && Sbox(d) == t
    ensures round % 2 == 0 ==>
      k[0] == Xor(u[0], q ^ Rcon(round / 2)) && k[1] == Xor(u[1], r) && k[2] == Xor(u[2], t) && k[3] == Xor(u[3], p)
    ensures round % 2 == 1 ==>
      k[0] == Xor(u[0], p) && k[1] == Xor(u[1], q) && k[2] == Xor(u[2], r) && k[3] == Xor(u[3], t)
    ensures forall n :: 4 <= n < 16 ==> k[n] == u[n] ^ k[n - 4]
  {
    hide *;
    FirstWord(key, u, v, k, round);
    LaterWords(key, u, v, k, round);
    TurnedCases(v, round);
  }

  lemma Key2(key: seq<bv8>, u: Block, v: Block, k: Block)
    requires |key| == 32 && KeysAre(key, 2, u, v, k)
    requires Are(u, 0x00, 0x01, 0x02, 0x03, 0x04, 0x05, 0x06, 0x07, 0x08, 0x09, 0x0a, 0x0b, 0x0c, 0x0d, 0x0e, 0x0f)
    requires Are(v, 0x10, 0x11, 0x12, 0x13, 0x14, 0x15, 0x16, 0x17, 0x18, 0x19, 0x1a, 0x1b, 0x1c, 0x1d, 0x1e, 0x1f)
    ensures Are(k, 0xa5, 0x73, 0xc2, 0x9f, 0xa1, 0x76, 0xc4, 0x98, 0xa9, 0x7f, 0xce, 0x93, 0xa5, 0x72, 0xc0, 0x9c)
  {
    hide KeysAre;
    KeyAfter(key, u, v, k, 2, 0x1c, 0x1d, 0x1e, 0x1f, 0x9c, 0xa4, 0x72, 0xc0);
  }

  lemma Key3(key: seq<bv8>, u: Block, v: Block, k: Block)
    requires |key| == 32 && KeysAre(key, 3, u, v, k)
    requires Are(u, 0x10, 0x11, 0x12, 0x13, 0x14, 0x15, 0x16, 0x17, 0x18, 0x19, 0x1a, 0x1b, 0x1c, 0x1d, 0x1e, 0x1f)
    requires Are(v, 0xa5, 0x73, 0xc2, 0x9f, 0xa1, 0x76, 0xc4, 0x98, 0xa9, 0x7f, 0xce, 0x93, 0xa5, 0x72, 0xc0, 0x9c)
    ensures Are(k, 0x16, 0x51, 0xa8, 0xcd, 0x02, 0x44, 0xbe, 0xda, 0x1a, 0x5d, 0xa4, 0xc1, 0x06, 0x40, 0xba, 0xde)
  {
    hide KeysAre;
    KeyAfter(key, u, v, k, 3, 0xa5, 0x72, 0xc0, 0x9c, 0x06, 0x40, 0xba, 0xde);
  }

  lemma Key4(key: seq<bv8>, u: Block, v: Block, k: Block)
    requires |key| == 32 && KeysAre(key, 4, u, v, k)
    requires Are(u, 0xa5, 0x73, 0xc2, 0x9f, 0xa1, 0x76, 0xc4, 0x98, 0xa9, 0x7f, 0xce, 0x93, 0xa5, 0x72, 0xc0, 0x9c)
    requires Are(v, 0x16, 0x51, 0xa8, 0xcd, 0x02, 0x44, 0xbe, 0xda, 0x1a, 0x5d, 0xa4, 0xc1, 0x06, 0x40, 0xba, 0xde)
    ensures Are(k, 0xae, 0x87, 0xdf, 0xf0, 0x0f, 0xf1, 0x1b, 0x68, 0xa6, 0x8e, 0xd5, 0xfb, 0x03, 0xfc, 0x15, 0x67)
  {
    hide KeysAre;
    KeyAfter(key, u, v, k, 4, 0x06, 0x40, 0xba, 0xde, 0x6f, 0x09, 0xf4, 0x1d);
  }

  lemma Key5(key: seq<bv8>, u: Block, v: Block, k: Block)
    requires |key| == 32 && KeysAre(key, 5, u, v, k)
    requires Are(u, 0x16, 0x51, 0xa8, 0xcd, 0x02, 0x44, 0xbe, 0xda, 0x1a, 0x5d, 0xa4, 0xc1, 0x06, 0x40, 0xba, 0xde)
    requires Are(v, 0xae, 0x87, 0xdf, 0xf0, 0x0f, 0xf1, 0x1b, 0x68, 0xa6, 0x8e, 0xd5, 0xfb, 0x03, 0xfc, 0x15, 0x67)
    ensures Are(k, 0x6d, 0xe1, 0xf1, 0x48, 0x6f, 0xa5, 0x4f, 0x92, 0x75, 0xf8, 0xeb, 0x53, 0x73, 0xb8, 0x51, 0x8d)
  {
    hide KeysAre;
    KeyAfter(key, u, v, k, 5, 0x03, 0xfc, 0x15, 0x67, 0x7b, 0xb0, 0x59, 0x85);
  }

  lemma Key6(key: seq<bv8>, u: Block, v: Block, k: Block)
    requires |key| == 32 && KeysAre(key, 6, u, v, k)
    requires Are(u, 0xae, 0x87, 0xdf, 0xf0, 0x0f, 0xf1, 0x1b, 0x68, 0xa6, 0x8e, 0xd5, 0xfb, 0x03, 0xfc, 0x15, 0x67)
    requires Are(v, 0x6d, 0xe1, 0xf1, 0x48, 0x6f, 0xa5, 0x4f, 0x92, 0x75, 0xf8, 0xeb, 0x53, 0x73, 0xb8, 0x51, 0x8d)
    ensures Are(k, 0xc6, 0x56, 0x82, 0x7f, 0xc9, 0xa7, 0x99, 0x17, 0x6f, 0x29, 0x4c, 0xec, 0x6c, 0xd5, 0x59, 0x8b)
  {
    hide KeysAre;
    KeyAfter(key, u, v, k, 6, 0x73, 0xb8, 0x51, 0x8d, 0x8f, 0x6c, 0xd1, 0x5d);
  }

  lemma Key7(key: seq<bv8>, u: Block, v: Block, k: Block)
    requires |key| == 32 && KeysAre(key, 7, u, v, k)
    requires Are(u, 0x6d, 0xe1, 0xf1, 0x48, 0x6f, 0xa5, 0x4f, 0x92, 0x75, 0xf8, 0xeb, 0x53, 0x73, 0xb8, 0x51, 0x8d)
    requires Are(v, 0xc6, 0x56, 0x82, 0x7f, 0xc9, 0xa7, 0x99, 0x17, 0x6f, 0x29, 0x4c, 0xec, 0x6c, 0xd5, 0x59, 0x8b)
    ensures Are(k, 0x3d, 0xe2, 0x3a, 0x75, 0x52, 0x47, 0x75, 0xe7, 0x27, 0xbf, 0x9e, 0xb4, 0x54, 0x07, 0xcf, 0x39)
  {
    hide KeysAre;
    KeyAfter(key, u, v, k, 7, 0x6c, 0xd5, 0x59, 0x8b, 0x50, 0x03, 0xcb, 0x3d);
  }

  lemma Key8(key: seq<bv8>, u: Block, v: Block, k: Block)
    requires |key| == 32 && KeysAre(key, 8, u, v, k)
    requires Are(u, 0xc6, 0x56, 0x82, 0x7f, 0xc9, 0xa7, 0x99, 0x17, 0x6f, 0x29, 0x4c, 0xec, 0x6c, 0xd5, 0x59, 0x8b)
    requires Are(v, 0x3d, 0xe2, 0x3a, 0x75, 0x52, 0x47, 0x75, 0xe7, 0x27, 0xbf, 0x9e, 0xb4, 0x54, 0x07, 0xcf, 0x39)
    ensures Are(k, 0x0b, 0xdc, 0x90, 0x5f, 0xc2, 0x7b, 0x09, 0x48, 0xad, 0x52, 0x45, 0xa4, 0xc1, 0x87, 0x1c, 0x2f)
  {
    hide KeysAre;
    KeyAfter(key, u, v, k, 8, 0x54, 0x07, 0xcf, 0x39, 0x20, 0xc5, 0x8a, 0x12);
  }

  lemma Key9(key: seq<bv8>, u: Block, v: Block, k: Block)
    requires |key| == 32 && KeysAre(key, 9, u, v, k)
    requires Are(u, 0x3d, 0xe2, 0x3a, 0x75, 0x52, 0x47, 0x75, 0xe7, 0x27, 0xbf, 0x9e, 0xb4, 0x54, 0x07, 0xcf, 0x39)
    requires Are(v, 0x0b, 0xdc, 0x90, 0x5f, 0xc2, 0x7b, 0x09, 0x48, 0xad, 0x52, 0x45, 0xa4, 0xc1, 0x87, 0x1c, 0x2f)
    ensures Are(k, 0x45, 0xf5, 0xa6, 0x60, 0x17, 0xb2, 0xd3, 0x87, 0x30, 0x0d, 0x4d, 0x33, 0x64, 0x0a, 0x82, 0x0a)
  {
    hide KeysAre;
    KeyAfter(key, u, v, k, 9, 0xc1, 0x87, 0x1c, 0x2f, 0x78, 0x17, 0x9c, 0x15);
  }

  lemma Key10(key: seq<bv8>, u: Block, v: Block, k: Block)
    requires |key| == 32 && KeysAre(key, 10, u, v, k)
    requires Are(u, 0x0b, 0xdc, 0x90, 0x5f, 0xc2, 0x7b, 0x09, 0x48, 0xad, 0x52, 0x45, 0xa4, 0xc1, 0x87, 0x1c, 0x2f)
    requires Are(v, 0x45, 0xf5, 0xa6, 0x60, 0x17, 0xb2, 0xd3, 0x87, 0x30, 0x0d, 0x4d, 0x33, 0x64, 0x0a, 0x82, 0x0a)
    ensures Are(k, 0x7c, 0xcf, 0xf7, 0x1c, 0xbe, 0xb4, 0xfe, 0x54, 0x13, 0xe6, 0xbb, 0xf0, 0xd2, 0x61, 0xa7, 0xdf)
  {
    hide KeysAre;
    KeyAfter(key, u, v, k, 10, 0x64, 0x0a, 0x82, 0x0a, 0x43, 0x67, 0x13, 0x67);
  }

  lemma Key11(key: seq<bv8>, u: Block, v: Block, k: Block)
    requires |key| == 32 && KeysAre(key, 11, u, v, k)
    requires Are(u, 0x45, 0xf5, 0xa6, 0x60, 0x17, 0xb2, 0xd3, 0x87, 0x30, 0x0d, 0x4d, 0x33, 0x64, 0x0a, 0x82, 0x0a)
    requires Are(v, 0x7c, 0xcf, 0xf7, 0x1c, 0xbe, 0xb4, 0xfe, 0x54, 0x13, 0xe6, 0xbb, 0xf0, 0xd2, 0x61, 0xa7, 0xdf)
    ensures Are(k, 0xf0, 0x1a, 0xfa, 0xfe, 0xe7, 0xa8, 0x29, 0x79, 0xd7, 0xa5, 0x64, 0x4a, 0xb3, 0xaf, 0xe6, 0x40)
  {
    hide KeysAre;
    KeyAfter(key, u, v, k, 11, 0xd2, 0x61, 0xa7, 0xdf, 0xb5, 0xef, 0x5c, 0x9e);
  }

  lemma Key12(key: seq<bv8>, u: Block, v: Block, k: Block)
    requires |key| == 32 && KeysAre(key, 12, u, v, k)
    requires Are(u, 0x7c, 0xcf, 0xf7, 0x1c, 0xbe, 0xb4, 0xfe, 0x54, 0x13, 0xe6, 0xbb, 0xf0, 0xd2, 0x61, 0xa7, 0xdf)
    requires Are(v, 0xf0, 0x1a, 0xfa, 0xfe, 0xe7, 0xa8, 0x29, 0x79, 0xd7, 0xa5, 0x64, 0x4a, 0xb3, 0xaf, 0xe6, 0x40)
    ensures Are(k, 0x25, 0x41, 0xfe, 0x71, 0x9b, 0xf5, 0x00, 0x25, 0x88, 0x13, 0xbb, 0xd5, 0x5a, 0x72, 0x1c, 0x0a)
  {
    hide KeysAre;
    KeyAfter(key, u, v, k, 12, 0xb3, 0xaf, 0xe6, 0x40, 0x6d, 0x79, 0x8e, 0x09);
  }

  lemma Key13(key: seq<bv8>, u: Block, v: Block, k: Block)
    requires |key| == 32 && KeysAre(key, 13, u, v, k)
    requires Are(u, 0xf0, 0x1a, 0xfa, 0xfe, 0xe7, 0xa8, 0x29, 0x79, 0xd7, 0xa5, 0x64, 0x4a, 0xb3, 0xaf, 0xe6, 0x40)
    requires Are(v, 0x25, 0x41, 0xfe, 0x71, 0x9b, 0xf5, 0x00, 0x25, 0x88, 0x13, 0xbb, 0xd5, 0x5a, 0x72, 0x1c, 0x0a)
    ensures Are(k, 0x4e, 0x5a, 0x66, 0x99, 0xa9, 0xf2, 0x4f, 0xe0, 0x7e, 0x57, 0x2b, 0xaa, 0xcd, 0xf8, 0xcd, 0xea)
  {
    hide KeysAre;
    KeyAfter(key, u, v, k, 13, 0x5a, 0x72, 0x1c, 0x0a, 0xbe, 0x40, 0x9c, 0x67);
  }

  lemma Key14(key: seq<bv8>, u: Block, v: Block, k: Block)
    requires |key| == 32 && KeysAre(key, 14, u, v, k)
    requires Are(u, 0x25, 0x41, 0xfe, 0x71, 0x9b, 0xf5, 0x00, 0x25, 0x88, 0x13, 0xbb, 0xd5, 0x5a, 0x72, 0x1c, 0x0a)
    requires Are(v, 0x4e, 0x5a, 0x66, 0x99, 0xa9, 0xf2, 0x4f, 0xe0, 0x7e, 0x57, 0x2b, 0xaa, 0xcd, 0xf8, 0xcd, 0xea)
    ensures Are(k, 0x24, 0xfc, 0x79, 0xcc, 0xbf, 0x09, 0x79, 0xe9, 0x37, 0x1a, 0xc2, 0x3c, 0x6d, 0x68, 0xde, 0x36)
  {
    hide KeysAre;
    KeyAfter(key, u, v, k, 14, 0xcd, 0xf8, 0xcd, 0xea, 0xbd, 0x41, 0xbd, 0x87);
  }

  // ----- the example -----

  const KEY: seq<bv8> := [0x00, 0x01, 0x02, 0x03, 0x04, 0x05, 0x06, 0x07,
                          0x08, 0x09, 0x0a, 0x0b, 0x0c, 0x0d, 0x0e, 0x0f,
                          0x10, 0x11, 0x12, 0x13, 0x14, 0x15, 0x16, 0x17,
                          0x18, 0x19, 0x1a, 0x1b, 0x1c, 0x1d, 0x1e, 0x1f]
  const PLAIN: Block := [0x00, 0x11, 0x22, 0x33, 0x44, 0x55, 0x66, 0x77, 0x88, 0x99, 0xaa, 0xbb, 0xcc, 0xdd, 0xee, 0xff]
  const CIPHER: Block := [0x8e, 0xa2, 0xb7, 0xca, 0x51, 0x67, 0x45, 0xbf,
                          0xea, 0xfc, 0x49, 0x90, 0x4b, 0x49, 0x60, 0x89]

  /** The first two keys are the key's halves. */
  lemma FirstKeys(key: seq<bv8>)
    requires |key| == 32
    ensures RoundKey(Expanded(key), 0) == key[..16] && RoundKey(Expanded(key), 1) == key[16..]
  {
    hide XorWords, Temp;
    WordsPrefix(key, 8, 60);
    assert Words(key, 8) == key;
    assert Expanded(key)[..32] == key;
  }

  lemma KeyBytes(k: Block, v: Block)
    requires k == KEY[..16] && v == KEY[16..]
    ensures Are(k, 0x00, 0x01, 0x02, 0x03, 0x04, 0x05, 0x06, 0x07, 0x08, 0x09, 0x0a, 0x0b, 0x0c, 0x0d, 0x0e, 0x0f)
    ensures Are(v, 0x10, 0x11, 0x12, 0x13, 0x14, 0x15, 0x16, 0x17, 0x18, 0x19, 0x1a, 0x1b, 0x1c, 0x1d, 0x1e, 0x1f)
  {
  }

  /** All round keys. */
  ghost predicate AllKeys(w: seq<bv8>)
    requires |w| == 240
  {
    && Are(RoundKey(w, 1), 0x10, 0x11, 0x12, 0x13, 0x14, 0x15, 0x16, 0x17,
           0x18, 0x19, 0x1a, 0x1b, 0x1c, 0x1d, 0x1e, 0x1f)
    && Are(RoundKey(w, 2), 0xa5, 0x73, 0xc2, 0x9f, 0xa1, 0x76, 0xc4, 0x98,
           0xa9, 0x7f, 0xce, 0x93, 0xa5, 0x72, 0xc0, 0x9c)
    && Are(RoundKey(w, 3), 0x16, 0x51, 0xa8, 0xcd, 0x02, 0x44, 0xbe, 0xda,
           0x1a, 0x5d, 0xa4, 0xc1, 0x06, 0x40, 0xba, 0xde)
    && Are(RoundKey(w, 4), 0xae, 0x87, 0xdf, 0xf0, 0x0f, 0xf1, 0x1b, 0x68,
           0xa6, 0x8e, 0xd5, 0xfb, 0x03, 0xfc, 0x15, 0x67)
    && Are(RoundKey(w, 5), 0x6d, 0xe1, 0xf1, 0x48, 0x6f, 0xa5, 0x4f, 0x92,
           0x75, 0xf8, 0xeb, 0x53, 0x73, 0xb8, 0x51, 0x8d)
    && Are(RoundKey(w, 6), 0xc6, 0x56, 0x82, 0x7f, 0xc9, 0xa7, 0x99, 0x17,
           0x6f, 0x29, 0x4c, 0xec, 0x6c, 0xd5, 0x59, 0x8b)
    && Are(RoundKey(w, 7), 0x3d, 0xe2, 0x3a, 0x75, 0x52, 0x47, 0x75, 0xe7,
           0x27, 0xbf, 0x9e, 0xb4, 0x54, 0x07, 0xcf, 0x39)
    && Are(RoundKey(w, 8), 0x0b, 0xdc, 0x90, 0x5f, 0xc2, 0x7b, 0x09, 0x48,
           0xad, 0x52, 0x45, 0xa4, 0xc1, 0x87, 0x1c, 0x2f)
    && Are(RoundKey(w, 9), 0x45, 0xf5, 0xa6, 0x60, 0x17, 0xb2, 0xd3, 0x87,
           0x30, 0x0d, 0x4d, 0x33, 0x64, 0x0a, 0x82, 0x0a)
    && Are(RoundKey(w, 10), 0x7c, 0xcf, 0xf7, 0x1c, 0xbe, 0xb4, 0xfe, 0x54,
           0x13, 0xe6, 0xbb, 0xf0, 0xd2, 0x61, 0xa7, 0xdf)
    && Are(RoundKey(w, 11), 0xf0, 0x1a, 0xfa, 0xfe, 0xe7, 0xa8, 0x29, 0x79,
           0xd7, 0xa5, 0x64, 0x4a, 0xb3, 0xaf, 0xe6, 0x40)
    && Are(RoundKey(w, 12), 0x25, 0x41, 0xfe, 0x71, 0x9b, 0xf5, 0x00, 0x25,
           0x88, 0x13, 0xbb, 0xd5, 0x5a, 0x72, 0x1c, 0x0a)
    && Are(RoundKey(w, 13), 0x4e, 0x5a, 0x66, 0x99, 0xa9, 0xf2, 0x4f, 0xe0,
           0x7e, 0x57, 0x2b, 0xaa, 0xcd, 0xf8, 0xcd, 0xea)
    && Are(RoundKey(w, 14), 0x24, 0xfc, 0x79, 0xcc, 0xbf, 0x09, 0x79, 0xe9,
           0x37, 0x1a, 0xc2, 0x3c, 0x6d, 0x68, 0xde, 0x36)
  }

  lemma KeysHere(key: seq<bv8>, round: nat)
    requires |key| == 32 && 2 <= round < 15
    ensures var w := Expanded(key);
      KeysAre(key, round, RoundKey(w, round - 2), RoundKey(w, round - 1), RoundKey(w, round))
  {
    hide Expanded, RoundKey;
  }

  lemma ExampleKeys(w: seq<bv8>)
    requires w == Expanded(KEY)
    ensures AllKeys(w)
  {
    hide Are, Expanded, RoundKey, KeysAre;
    FirstKeys(KEY);
    KeyBytes(RoundKey(w, 0), RoundKey(w, 1));
    KeysHere(KEY, 2);
    Key2(KEY, RoundKey(w, 0), RoundKey(w, 1), RoundKey(w, 2));
    KeysHere(KEY, 3);
    Key3(KEY, RoundKey(w, 1), RoundKey(w, 2), RoundKey(w, 3));
    KeysHere(KEY, 4);
    Key4(KEY, RoundKey(w, 2), RoundKey(w, 3), RoundKey(w, 4));
    KeysHere(KEY, 5);
    Key5(KEY, RoundKey(w, 3), RoundKey(w, 4), RoundKey(w, 5));
    KeysHere(KEY, 6);
    Key6(KEY, RoundKey(w, 4), RoundKey(w, 5), RoundKey(w, 6));
    KeysHere(KEY, 7);
    Key7(KEY, RoundKey(w, 5), RoundKey(w, 6), RoundKey(w, 7));
    KeysHere(KEY, 8);
    Key8(KEY, RoundKey(w, 6), RoundKey(w, 7), RoundKey(w, 8));
    KeysHere(KEY, 9);
    Key9(KEY, RoundKey(w, 7), RoundKey(w, 8), RoundKey(w, 9));
    KeysHere(KEY, 10);
    Key10(KEY, RoundKey(w, 8), RoundKey(w, 9), RoundKey(w, 10));
    KeysHere(KEY, 11);
    Key11(KEY, RoundKey(w, 9), RoundKey(w, 10), RoundKey(w, 11));
    KeysHere(KEY, 12);
    Key12(KEY, RoundKey(w, 10), RoundKey(w, 11), RoundKey(w, 12));
    KeysHere(KEY, 13);
    Key13(KEY, RoundKey(w, 11), RoundKey(w, 12), RoundKey(w, 13));
    KeysHere(KEY, 14);
    Key14(KEY, RoundKey(w, 12), RoundKey(w, 13), RoundKey(w, 14));
  }

  lemma RoundsAfter(s: Block, w: seq<bv8>, round: nat)
    requires 0 < round && 16 * round + 16 <= |w|
    ensures Rounds(s, w, round) == After(Rounds(s, w, round - 1), RoundKey(w, round))
  {
    hide XorBlocks, MixColumns, ShiftRows, SubBytes, RoundKey;
  }

  lemma PlainBytes(p: Block)
    requires p == PLAIN
    ensures Are(p, 0x00, 0x11, 0x22, 0x33, 0x44, 0x55, 0x66, 0x77, 0x88, 0x99, 0xaa, 0xbb, 0xcc, 0xdd, 0xee, 0xff)
  {
  }

  lemma CipherBytes(c: Block)
    requires Are(c, 0x8e, 0xa2, 0xb7, 0xca, 0x51, 0x67, 0x45, 0xbf, 0xea, 0xfc, 0x49, 0x90, 0x4b, 0x49, 0x60, 0x89)
    ensures c == CIPHER
  {
  }

  lemma Start(p: Block, k: Block)
    requires Are(p, 0x00, 0x11, 0x22, 0x33, 0x44, 0x55, 0x66, 0x77, 0x88, 0x99, 0xaa, 0xbb, 0xcc, 0xdd, 0xee, 0xff)
    requires Are(k, 0x00, 0x01, 0x02, 0x03, 0x04, 0x05, 0x06, 0x07, 0x08, 0x09, 0x0a, 0x0b, 0x0c, 0x0d, 0x0e, 0x0f)
    ensures Are(XorBlocks(p, k), 0x00, 0x10, 0x20, 0x30, 0x40, 0x50, 0x60, 0x70,
                0x80, 0x90, 0xa0, 0xb0, 0xc0, 0xd0, 0xe0, 0xf0)
  {
  }

  lemma LastColumn(s: Block, k: Block, n: nat, a: bv8, b: bv8, c: bv8, d: bv8, p: bv8, q: bv8, r: bv8, t: bv8)
    requires n < 4
    requires s[4 * n] == a && s[(4 * n + 5) % 16] == b && s[(4 * n + 10) % 16] == c && s[(4 * n + 15) % 16] == d
    requires Sbox(a) == p && Sbox(b) == q && Sbox(c) == r && Sbox(d) == t
    ensures var x := XorBlocks(ShiftRows(SubBytes(s)), k);
      && x[4 * n] == Xor(p, k[4 * n]) && x[4 * n + 1] == Xor(q, k[4 * n + 1])
      && x[4 * n + 2] == Xor(r, k[4 * n + 2]) && x[4 * n + 3] == Xor(t, k[4 * n + 3])
  {
    hide *;
    SubstitutedColumn(s, n);
    var v := ShiftRows(SubBytes(s));
    XorAt(v, k, 4 * n);
    XorAt(v, k, 4 * n + 1);
    XorAt(v, k, 4 * n + 2);
    XorAt(v, k, 4 * n + 3);
  }

  lemma LastRound(s: Block, k: Block)
    requires Are(s, 0x62, 0x7b, 0xce, 0xb9, 0x99, 0x9d, 0x5a, 0xaa, 0xc9, 0x45, 0xec, 0xf4, 0x23, 0xf5, 0x6d, 0xa5)
    requires Are(k, 0x24, 0xfc, 0x79, 0xcc, 0xbf, 0x09, 0x79, 0xe9, 0x37, 0x1a, 0xc2, 0x3c, 0x6d, 0x68, 0xde, 0x36)
    ensures Are(XorBlocks(ShiftRows(SubBytes(s)), k), 0x8e, 0xa2, 0xb7, 0xca, 0x51, 0x67, 0x45, 0xbf,
                0xea, 0xfc, 0x49, 0x90, 0x4b, 0x49, 0x60, 0x89)
  {
    hide XorBlocks, ShiftRows, SubBytes;
    LastColumn(s, k, 0, 0x62, 0x9d, 0xec, 0xa5, 0xaa, 0x5e, 0xce, 0x06);
    LastColumn(s, k, 1, 0x99, 0x45, 0x6d, 0xb9, 0xee, 0x6e, 0x3c, 0x56);
    LastColumn(s, k, 2, 0xc9, 0xf5, 0xce, 0xaa, 0xdd, 0xe6, 0x8b, 0xac);
    LastColumn(s, k, 3, 0x23, 0x7b, 0x5a, 0xf4, 0x26, 0x21, 0xbe, 0xbf);
  }

  lemma ExampleRounds(w: seq<bv8>, p: Block)
    requires |w| == 240 && AllKeys(w)
    requires Are(XorBlocks(p, RoundKey(w, 0)), 0x00, 0x10, 0x20, 0x30, 0x40, 0x50, 0x60, 0x70,
                 0x80, 0x90, 0xa0, 0xb0, 0xc0, 0xd0, 0xe0, 0xf0)
    ensures Are(Rounds(p, w, 13), 0x62, 0x7b, 0xce, 0xb9, 0x99, 0x9d, 0x5a, 0xaa,
                0xc9, 0x45, 0xec, 0xf4, 0x23, 0xf5, 0x6d, 0xa5)
  {
    hide Are, XorBlocks, RoundKey, Rounds, After;
    RoundsFirst(p, w);
    RoundsAfter(p, w, 1);
    Round1(Rounds(p, w, 0), RoundKey(w, 1));
    RoundsAfter(p, w, 2);
    Round2(Rounds(p, w, 1), RoundKey(w, 2));
    RoundsAfter(p, w, 3);
    Round3(Rounds(p, w, 2), RoundKey(w, 3));
    RoundsAfter(p, w, 4);
    Round4(Rounds(p, w, 3), RoundKey(w, 4));
    RoundsAfter(p, w, 5);
    Round5(Rounds(p, w, 4), RoundKey(w, 5));
    RoundsAfter(p, w, 6);
    Round6(Rounds(p, w, 5), RoundKey(w, 6));
    RoundsAfter(p, w, 7);
    Round7(Rounds(p, w, 6), RoundKey(w, 7));
    RoundsAfter(p, w, 8);
    Round8(Rounds(p, w, 7), RoundKey(w, 8));
    RoundsAfter(p, w, 9);
    Round9(Rounds(p, w, 8), RoundKey(w, 9));
    RoundsAfter(p, w, 10);
    Round10(Rounds(p, w, 9), RoundKey(w, 10));
    RoundsAfter(p, w, 11);
    Round11(Rounds(p, w, 10), RoundKey(w, 11));
    RoundsAfter(p, w, 12);
    Round12(Rounds(p, w, 11), RoundKey(w, 12));
    RoundsAfter(p, w, 13);
    Round13(Rounds(p, w, 12), RoundKey(w, 13));
  }

  lemma ExampleAfter(w: seq<bv8>, p: Block)
    requires |w| == 240 && AllKeys(w) && p == PLAIN
    requires Are(XorBlocks(p, RoundKey(w, 0)), 0x00, 0x10, 0x20, 0x30, 0x40, 0x50, 0x60, 0x70,
                 0x80, 0x90, 0xa0, 0xb0, 0xc0, 0xd0, 0xe0, 0xf0)
    ensures Encrypt(p, w) == CIPHER
  {
    hide Are, XorBlocks, RoundKey, Rounds, ShiftRows, SubBytes;
    ExampleRounds(w, p);
    LastRound(Rounds(p, w, 13), RoundKey(w, 14));
    CipherBytes(Encrypt(p, w));
  }

  /** The example: this key takes this block to this one. */
  lemma Example()
    ensures Encrypt(PLAIN, Expanded(KEY)) == CIPHER
  {
    hide Are, XorBlocks, Rounds, RoundKey, ShiftRows, SubBytes, Expanded, AllKeys, Encrypt;
    var w := Expanded(KEY);
    ExampleKeys(w);
    FirstKeys(KEY);
    KeyBytes(RoundKey(w, 0), RoundKey(w, 1));
    PlainBytes(PLAIN);
    Start(PLAIN, RoundKey(w, 0));
    ExampleAfter(w, PLAIN);
  }
}
