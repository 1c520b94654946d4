/** Arithmetic in GF(2^8), FIPS 197 section 4, and the columns that the cipher mixes with it. */
module GaloisField {
  // ----- addition -----

  function Xor(a: bv8, b: bv8): bv8 {
    a ^ b
  }

  lemma XorCommutes(a: bv8, b: bv8)
    ensures Xor(a, b) == Xor(b, a)
  {
  }

  lemma XorAssociates(a: bv8, b: bv8, c: bv8)
    ensures Xor(Xor(a, b), c) == Xor(a, Xor(b, c))
  {
  }

  lemma XorAgain(a: bv8, b: bv8)
    ensures Xor(Xor(a, b), b) == a
  {
  }

  lemma XorNothing(a: bv8)
    ensures Xor(a, 0) == a && Xor(0, a) == a && Xor(a, a) == 0
  {
  }

  lemma XorSwap(a: bv8, b: bv8, c: bv8, d: bv8)
    ensures Xor(Xor(a, b), Xor(c, d)) == Xor(Xor(a, c), Xor(b, d))
  {
    hide Xor;
    XorAssociates(a, b, Xor(c, d));
    XorAssociates(b, c, d);
    XorCommutes(b, c);
    XorAssociates(c, b, d);
    XorAssociates(a, c, Xor(b, d));
  }

  // ----- multiplication -----

  /** Multiplication by x, as the code computes it. */
  function Xtime(x: bv8): bv8 {
    (x << 1) ^ (if x & 0x80 != 0 then 0x1b else 0)
  }

  lemma XtimeLinear(a: bv8, b: bv8)
    ensures Xtime(Xor(a, b)) == Xor(Xtime(a), Xtime(b))
  {
    if a & 0x80 == 0 {
      assert (a ^ b) & 0x80 == 0 <==> b & 0x80 == 0;
    } else {
      assert (a ^ b) & 0x80 == 0 <==> b & 0x80 != 0;
    }
  }

  /** The product of two polynomials modulo x^8 + x^4 + x^3 + x + 1. */
  function Product(x: bv8, y: bv8): bv8
    decreases y as nat
  {
    if y == 0 then 0 else
    HalfLess(y);
    Xor(Times(x, y & 1 != 0), Product(Xtime(x), y >> 1))
  }

  function Times(x: bv8, k: bool): bv8 {
    if k then x else 0
  }

  lemma HalfLess(y: bv8)
    requires y != 0
    ensures (y >> 1) as nat < y as nat
  {
  }

  lemma ProductStep(x: bv8, y: bv8)
    ensures y == 0 ==> Product(x, y) == 0
    ensures y != 0 ==> Product(x, y) == Xor(Times(x, y & 1 != 0), Product(Xtime(x), y >> 1))
  {
    hide Xtime, Xor, Times;
  }

  /** The step at 0 as well. */
  lemma ProductAlways(x: bv8, y: bv8)
    ensures Product(x, y) == Xor(Times(x, y & 1 != 0), Product(Xtime(x), y >> 1))
  {
    hide Xtime, Xor, Product;
    ProductStep(x, y);
    if y == 0 {
      ProductStep(Xtime(x), 0);
      XorNothing(0);
    }
  }

  /** Multiplication distributes over addition on the left. */
  lemma {:induction false} ProductLeft(a: bv8, b: bv8, y: bv8)
    ensures Product(Xor(a, b), y) == Xor(Product(a, y), Product(b, y))
    decreases y as nat
  {
    hide Xtime, Xor, Product, Times;
    if y == 0 {
      ProductStep(Xor(a, b), 0);
      ProductStep(a, 0);
      ProductStep(b, 0);
      XorNothing(0);
    } else {
      var k := y & 1 != 0;
      ProductStep(Xor(a, b), y);
      ProductStep(a, y);
      ProductStep(b, y);
      XtimeLinear(a, b);
      HalfLess(y);
      ProductLeft(Xtime(a), Xtime(b), y >> 1);
      TimesSum(a, b, k);
      XorSwap(Times(a, k), Product(Xtime(a), y >> 1), Times(b, k), Product(Xtime(b), y >> 1));
    }
  }

  lemma TimesSum(a: bv8, b: bv8, k: bool)
    ensures Times(Xor(a, b), k) == Xor(Times(a, k), Times(b, k))
  {
    hide Xor;
    XorNothing(0);
  }

  lemma TimesBoth(x: bv8, k: bool, l: bool)
    ensures Xor(Times(x, k), Times(x, l)) == Times(x, k != l)
  {
    hide Xor;
    XorNothing(x);
    XorNothing(0);
  }

  lemma HalfSum(y: bv8, z: bv8)
    ensures (y ^ z) >> 1 == (y >> 1) ^ (z >> 1)
  {
  }

  lemma LowSum(y: bv8, z: bv8)
    ensures (y ^ z) & 1 != 0 <==> (y & 1 != 0) != (z & 1 != 0)
  {
    if y & 1 == 0 {
    } else {
    }
  }

  /** Multiplication distributes over addition on the right. */
  lemma {:induction false} ProductRight(x: bv8, y: bv8, z: bv8)
    ensures Product(x, Xor(y, z)) == Xor(Product(x, y), Product(x, z))
    decreases y as nat
  {
    hide Xtime, Product, Times, Xor;
    XorNothing(z);
    if y == 0 {
      ProductStep(x, 0);
      XorNothing(Product(x, z));
    } else {
      ProductAlways(x, Xor(y, z));
      ProductAlways(x, y);
      ProductAlways(x, z);
      SumParts(y, z);
      HalfLess(y);
      ProductRight(Xtime(x), y >> 1, z >> 1);
      TimesBoth(x, y & 1 != 0, z & 1 != 0);
      XorSwap(Times(x, y & 1 != 0), Product(Xtime(x), y >> 1), Times(x, z & 1 != 0), Product(Xtime(x), z >> 1));
    }
  }

  lemma SumParts(y: bv8, z: bv8)
    ensures Xor(y, z) >> 1 == Xor(y >> 1, z >> 1)
    ensures Xor(y, z) & 1 != 0 <==> (y & 1 != 0) != (z & 1 != 0)
  {
    LowSum(y, z);
    HalfSum(y, z);
  }

  lemma ProductZero(x: bv8)
    ensures Product(x, 0) == 0 && Product(x, 1) == x
  {
    hide Xtime, Product, Xor;
    ProductStep(x, 0);
    ProductStep(x, 1);
    ProductStep(Xtime(x), 0);
    XorNothing(x);
  }

  /** Doubling one factor or the other. */
  lemma ProductDouble(x: bv8, y: bv8)
    requires y & 0x80 == 0
    ensures Product(Xtime(x), y) == Product(x, y << 1)
  {
    hide Xtime, Product, Xor;
    assert (y << 1) >> 1 == y && (y << 1) & 1 == 0;
    ProductAlways(x, y << 1);
    XorNothing(Product(Xtime(x), y));
  }

  /** Products with 2 and 3. */
  lemma SmallProducts(x: bv8)
    ensures Product(x, 2) == Xtime(x) && Product(x, 3) == Xor(x, Xtime(x))
  {
    hide Xtime, Product, Xor;
    ProductDouble(x, 1);
    ProductZero(x);
    ProductZero(Xtime(x));
    ProductStep(x, 3);
  }

  lemma TwoTimes(x: bv8, y: bv8)
    requires y & 0x80 == 0
    ensures Product(Product(x, 2), y) == Product(x, y << 1)
  {
    hide Xtime, Product;
    SmallProducts(x);
    ProductDouble(x, y);
  }

  lemma ThreeTimes(x: bv8, y: bv8)
    requires y & 0x80 == 0
    ensures Product(Product(x, 3), y) == Product(x, Xor(y, y << 1))
  {
    hide Xtime, Product, Xor;
    SmallProducts(x);
    ProductLeft(x, Xtime(x), y);
    ProductDouble(x, y);
    ProductRight(x, y, y << 1);
  }

  /** Multiplication as the code computes it: bits 5 to 7 of the second factor are not looked at. */
  function Multiply(x: bv8, y: bv8): bv8 {
    Xor(Xor(Xor(Xor(
      Times(x, y & 1 != 0),
      Times(Xtime(x), y & 2 != 0)),
      Times(Xtime(Xtime(x)), y & 4 != 0)),
      Times(Xtime(Xtime(Xtime(x))), y & 8 != 0)),
      Times(Xtime(Xtime(Xtime(Xtime(x)))), y & 16 != 0))
  }

  lemma ShiftedBits(y: bv8)
    requires y < 32
    ensures (y >> 1) & 1 != 0 <==> y & 2 != 0
    ensures (y >> 1 >> 1) & 1 != 0 <==> y & 4 != 0
    ensures (y >> 1 >> 1 >> 1) & 1 != 0 <==> y & 8 != 0
    ensures (y >> 1 >> 1 >> 1 >> 1) & 1 != 0 <==> y & 16 != 0
    ensures y >> 1 >> 1 >> 1 >> 1 >> 1 == 0
  {
  }

  /** The code's multiplication is the field's, for second factors below 32. */
  lemma MultiplyIsProduct(x: bv8, y: bv8)
    requires y < 32
    ensures Multiply(x, y) == Product(x, y)
  {
    hide Xtime, Product, Xor, Times;
    var x1 := Xtime(x);
    var x2 := Xtime(x1);
    var x3 := Xtime(x2);
    var x4 := Xtime(x3);
    var y1, y2, y3, y4 := y >> 1, y >> 1 >> 1, y >> 1 >> 1 >> 1, y >> 1 >> 1 >> 1 >> 1;
    ShiftedBits(y);
    ProductAlways(x, y);
    ProductAlways(x1, y1);
    ProductAlways(x2, y2);
    ProductAlways(x3, y3);
    ProductAlways(x4, y4);
    ProductZero(Xtime(x4));
    FiveTerms(Times(x, y & 1 != 0), Times(x1, y & 2 != 0), Times(x2, y & 4 != 0), Times(x3, y & 8 != 0),
        Times(x4, y & 16 != 0));
  }

  lemma FiveTerms(a: bv8, b: bv8, c: bv8, d: bv8, e: bv8)
    ensures Xor(Xor(Xor(Xor(a, b), c), d), e) == Xor(a, Xor(b, Xor(c, Xor(d, Xor(e, 0)))))
  {
    hide Xor;
    XorNothing(e);
    XorAssociates(Xor(Xor(a, b), c), d, e);
    XorAssociates(Xor(a, b), c, Xor(d, e));
    XorAssociates(a, b, Xor(c, Xor(d, e)));
  }

  // ----- columns -----

  /** A column's new first byte, section 5.1.3. */
  function Mixed(a: bv8, b: bv8, c: bv8, d: bv8): bv8 {
    Xor(Xor(Xor(Product(a, 2), Product(b, 3)), c), d)
  }

  /** A column's new first byte, section 5.3.3. */
  function Unmixed(a: bv8, b: bv8, c: bv8, d: bv8): bv8 {
    Xor(Xor(Xor(Product(a, 14), Product(b, 11)), Product(c, 13)), Product(d, 9))
  }

  /** Mixing as the code computes it. */
  lemma MixedAsComputed(a: bv8, b: bv8, c: bv8, d: bv8)
    ensures Xor(a, Xor(Xtime(Xor(a, b)), Xor(Xor(Xor(a, b), c), d))) == Mixed(a, b, c, d)
  {
    hide Xtime, Xor, Product;
    SmallProducts(a);
    SmallProducts(b);
    XtimeLinear(a, b);
    var p, q, r := Xtime(a), Xtime(b), Xor(Xtime(a), Xtime(b));
    XorAssociates(Xor(a, b), c, d);
    XorAssociates(a, b, Xor(c, d));
    XorCommutes(r, Xor(a, Xor(b, Xor(c, d))));
    XorAssociates(a, Xor(b, Xor(c, d)), r);
    XorCommutes(a, Xor(a, Xor(Xor(b, Xor(c, d)), r)));
    XorCommutes(a, Xor(Xor(b, Xor(c, d)), r));
    XorAgain(Xor(Xor(b, Xor(c, d)), r), a);
    XorCommutes(Xor(b, Xor(c, d)), r);
    XorSwap(p, q, b, Xor(c, d));
    XorSwap(p, b, q, Xor(c, d));
    XorAssociates(p, q, Xor(b, Xor(c, d)));
    XorAssociates(q, b, Xor(c, d));
    XorCommutes(q, b);
    XorAssociates(p, Xor(b, q), Xor(c, d));
    XorAssociates(Xor(p, Xor(b, q)), c, d);
  }

  /** Four bytes added up. */
  function Quad(a: bv8, b: bv8, c: bv8, d: bv8): bv8 {
    Xor(Xor(a, b), Xor(c, d))
  }

  lemma QuadRotate(a: bv8, b: bv8, c: bv8, d: bv8)
    ensures Quad(b, c, d, a) == Quad(a, b, c, d)
  {
    hide Xor;
    XorCommutes(Xor(b, c), Xor(d, a));
    XorCommutes(d, a);
    XorSwap(a, d, b, c);
    XorCommutes(d, c);
  }

  lemma QuadSum(a: bv8, b: bv8, c: bv8, d: bv8, e: bv8, f: bv8, g: bv8, h: bv8)
    ensures Xor(Quad(a, b, c, d), Quad(e, f, g, h)) == Quad(Xor(a, e), Xor(b, f), Xor(c, g), Xor(d, h))
  {
    hide Xor;
    XorSwap(Xor(a, b), Xor(c, d), Xor(e, f), Xor(g, h));
    XorSwap(a, b, e, f);
    XorSwap(c, d, g, h);
  }

  /** A mixed byte multiplied, by the bytes of the column. */
  lemma ProductOfMixed(a: bv8, b: bv8, c: bv8, d: bv8, y: bv8)
    requires y & 0x80 == 0
    ensures Product(Mixed(a, b, c, d), y) == Quad(Product(a, y << 1), Product(b, Xor(y, y << 1)), Product(c, y),
        Product(d, y))
  {
    hide Product, Xor;
    var p, q := Product(a, 2), Product(b, 3);
    ProductLeft(Xor(Xor(p, q), c), d, y);
    ProductLeft(Xor(p, q), c, y);
    ProductLeft(p, q, y);
    TwoTimes(a, y);
    ThreeTimes(b, y);
    XorAssociates(Xor(Product(p, y), Product(q, y)), Product(c, y), Product(d, y));
  }

  /** Four sums whose parts come in rotated order. */
  lemma UnmixedQuads(a: bv8, b: bv8, c: bv8, d: bv8, e: bv8, f: bv8, g: bv8, h: bv8, i: bv8, j: bv8, k: bv8, l: bv8,
                     m: bv8, n: bv8, o: bv8, p: bv8)
    ensures Xor(Xor(Xor(Quad(a, b, c, d), Quad(f, g, h, e)), Quad(k, l, i, j)), Quad(p, m, n, o))
         == Quad(Xor(Xor(Xor(a, e), i), m), Xor(Xor(Xor(b, f), j), n), Xor(Xor(Xor(c, g), k), o),
             Xor(Xor(Xor(d, h), l), p))
  {
    hide Xor, Quad;
    QuadRotate(e, f, g, h);
    QuadRotate(i, j, k, l);
    QuadRotate(j, k, l, i);
    QuadRotate(p, m, n, o);
    QuadSum(a, b, c, d, e, f, g, h);
    QuadSum(Xor(a, e), Xor(b, f), Xor(c, g), Xor(d, h), i, j, k, l);
    QuadSum(Xor(Xor(a, e), i), Xor(Xor(b, f), j), Xor(Xor(c, g), k), Xor(Xor(d, h), l), m, n, o, p);
  }

  /** The sum of four multiples of one byte. */
  lemma FourProducts(x: bv8, p: bv8, q: bv8, r: bv8, s: bv8)
    ensures Xor(Xor(Xor(Product(x, p), Product(x, q)), Product(x, r)), Product(x, s))
        == Product(x, Xor(Xor(Xor(p, q), r), s))
  {
    hide Product, Xor;
    ProductRight(x, p, q);
    ProductRight(x, Xor(p, q), r);
    ProductRight(x, Xor(Xor(p, q), r), s);
  }

  /** The two mixing polynomials are inverse to each other: of the sums of their products only the first is not zero. */
  lemma Inverses()
    ensures Xor(Xor(Xor(28, 11), 13), Xor(9, 18)) == 1
    ensures Xor(Xor(Xor(Xor(14, 28), 22), 13), 9) == 0
    ensures Xor(Xor(Xor(14, Xor(11, 22)), 26), 9) == 0
    ensures Xor(Xor(Xor(14, 11), Xor(13, 26)), 18) == 0
  {
  }

  /** Unmixing undoes mixing. */
  lemma UnmixedMixed(a: bv8, b: bv8, c: bv8, d: bv8)
    ensures Unmixed(Mixed(a, b, c, d), Mixed(b, c, d, a), Mixed(c, d, a, b), Mixed(d, a, b, c)) == a
  {
    hide Product, Xor, Mixed, Quad;
    ProductOfMixed(a, b, c, d, 14);
    ProductOfMixed(b, c, d, a, 11);
    ProductOfMixed(c, d, a, b, 13);
    ProductOfMixed(d, a, b, c, 9);
    UnmixedQuads(
      Product(a, 28), Product(b, Xor(14, 28)), Product(c, 14), Product(d, 14),
      Product(a, 11), Product(b, 22), Product(c, Xor(11, 22)), Product(d, 11),
      Product(a, 13), Product(b, 13), Product(c, 26), Product(d, Xor(13, 26)),
      Product(a, Xor(9, 18)), Product(b, 9), Product(c, 9), Product(d, 18));
    FourProducts(a, 28, 11, 13, Xor(9, 18));
    FourProducts(b, Xor(14, 28), 22, 13, 9);
    FourProducts(c, 14, Xor(11, 22), 26, 9);
    FourProducts(d, 14, 11, Xor(13, 26), 18);
    Inverses();
    ProductZero(a);
    ProductZero(b);
    ProductZero(c);
    ProductZero(d);
    OnlyFirst(a);
  }

  lemma OnlyFirst(a: bv8)
    ensures Quad(a, 0, 0, 0) == a
  {
    hide Xor;
    XorNothing(a);
    XorNothing(0);
  }
}
