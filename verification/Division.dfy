/** Quotients and remainders. */
module Division {
  lemma {:induction false} MulAtLeast(m: nat, k: nat)
    requires k >= 1
    ensures m * k >= m
  {
    if k > 1 {
      MulAtLeast(m, k - 1);
      assert m * k == m * (k - 1) + m;
    }
  }

  lemma Distribute(m: int, a: int, b: int)
    ensures m * (a - b) == m * a - m * b
  {
  }

  lemma DivMod(v: int, m: nat)
    requires 0 < m
    ensures v == m * (v / m) + v % m && 0 <= v % m < m
  {
  }

  lemma RemainderUnique(m: nat, q: int, r: nat, d: int, e: nat)
    requires r < m && e < m && m * q + r == m * d + e
    ensures r == e
  {
    Distribute(m, q, d);
    Distribute(m, d, q);
    if q > d {
      MulAtLeast(m, q - d);
    }
    if d > q {
      MulAtLeast(m, d - q);
    }
  }

  lemma ModUnique(q: int, r: nat, m: nat)
    requires r < m
    ensures (m * q + r) % m == r
  {
    var v := m * q + r;
    DivMod(v, m);
    RemainderUnique(m, q, r, v / m, v % m);
  }

  lemma DivUnique(q: nat, r: nat, m: nat)
    requires r < m
    ensures (m * q + r) / m == q
  {
    var v := m * q + r;
    var d := v / m;
    DivMod(v, m);
    RemainderUnique(m, q, r, d, v % m);
    Distribute(m, q, d);
    Distribute(m, d, q);
    if q > d {
      MulAtLeast(m, q - d);
    }
    if d > q {
      MulAtLeast(m, d - q);
    }
  }

  /** Dividing twice. */
  lemma DivTwice(v: nat, m: nat)
    requires 0 < m
    ensures v / 256 / m == v / (256 * m)
  {
    var a := v / 256;
    var q, s, r := a / m, a % m, v % 256;
    DivMod(a, m);
    Associate(m, q);
    assert v == 256 * m * q + (256 * s + r);
    DivUnique(q, 256 * s + r, 256 * m);
  }

  lemma Associate(m: nat, q: nat)
    ensures 256 * (m * q) == 256 * m * q
  {
  }

  lemma ModSame(x: int, y: int, q: int, m: nat)
    requires 0 < m && x == y + m * q
    ensures x % m == y % m
  {
    var d := y / m;
    assert y == m * d + y % m;
    assert x == m * (d + q) + y % m;
    ModUnique(d + q, y % m, m);
  }

  lemma SmallMod(x: nat, m: nat)
    requires x < m
    ensures x % m == x
  {
  }

  lemma NextMod(x: nat, y: nat, m: nat)
    requires 0 < m && x % m == y % m
    ensures (x + 1) % m == (y + 1) % m
  {
    var a, b := x / m, y / m;
    assert x == m * a + x % m && y == m * b + y % m;
    assert x + 1 == y + 1 + m * (a - b);
    ModSame(x + 1, y + 1, a - b, m);
  }

  lemma CongruentBack(x: nat, y: nat, dist: nat, m: nat)
    requires 0 < m && x % m == y % m
    ensures (x - dist) % m == (y - dist) % m
  {
    DivMod(x, m);
    DivMod(y, m);
    Distribute(m, x / m, y / m);
    ModSame(x - dist, y - dist, x / m - y / m, m);
  }
}
