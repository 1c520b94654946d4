/** The cipher as it works on sixteen bytes of a buffer. */
module AesInPlace {
  import opened GaloisField
  import opened Aes

  function BlockAt(b: seq<bv8>, at: nat): Block
    requires at + 16 <= |b|
  {
    b[at..at + 16]
  }

  /** The buffer with a block in the place of sixteen of its bytes. */
  function Spliced(b: seq<bv8>, at: nat, s: Block): (r: seq<bv8>)
    requires at + 16 <= |b|
    ensures |r| == |b|
  {
    b[..at] + s + b[at + 16..]
  }

  lemma Again(b: seq<bv8>, at: nat, s: Block)
    requires at + 16 <= |b|
    ensures BlockAt(Spliced(b, at, s), at) == s && Spliced(b, at, BlockAt(b, at)) == b
    ensures forall t: Block :: Spliced(Spliced(b, at, s), at, t) == Spliced(b, at, t)
  {
    forall t: Block ensures Spliced(Spliced(b, at, s), at, t) == Spliced(b, at, t) {
      var c := Spliced(b, at, s);
      assert c[..at] == b[..at] && c[at + 16..] == b[at + 16..];
    }
  }

  lemma ByElements(b: seq<bv8>, at: nat, s: Block, now: seq<bv8>)
    requires at + 16 <= |b| == |now|
    requires forall k :: 0 <= k < at || at + 16 <= k < |b| ==> now[k] == b[k]
    requires forall k :: at <= k < at + 16 ==> now[k] == s[k - at]
    ensures now == Spliced(b, at, s)
  {
  }

  /** The bytes done so far when rows are the outer loop and columns the inner one. */
  predicate Done(k: int, i: nat, j: nat) {
    0 <= k < 16 && (k % 4 < i || (k % 4 == i && k / 4 < j))
  }

  method SubBytesInPlace(buf: array<bv8>, at: nat)
    requires at + 16 <= buf.Length
    modifies buf
    ensures buf[..] == Spliced(old(buf[..]), at, SubBytes(BlockAt(old(buf[..]), at)))
  {
    hide Sbox;
    ghost var b := buf[..];
    for i := 0 to 4
      invariant forall k :: 0 <= k < buf.Length ==> buf[k] == if Done(k - at, i, 0) then Sbox(b[k]) else b[k]
    {
      for j := 0 to 4
        invariant forall k :: 0 <= k < buf.Length ==> buf[k] == if Done(k - at, i, j) then Sbox(b[k]) else b[k]
      {
        buf[at + 4 * j + i] := Sbox(buf[at + 4 * j + i]);
      }
    }
    ByElements(b, at, SubBytes(BlockAt(b, at)), buf[..]);
  }

  method InvSubBytesInPlace(buf: array<bv8>, at: nat)
    requires at + 16 <= buf.Length
    modifies buf
    ensures buf[..] == Spliced(old(buf[..]), at, InvSubBytes(BlockAt(old(buf[..]), at)))
  {
    hide InvSbox;
    ghost var b := buf[..];
    for i := 0 to 4
      invariant forall k :: 0 <= k < buf.Length ==> buf[k] == if Done(k - at, i, 0) then InvSbox(b[k]) else b[k]
    {
      for j := 0 to 4
        invariant forall k :: 0 <= k < buf.Length ==> buf[k] == if Done(k - at, i, j) then InvSbox(b[k]) else b[k]
      {
        buf[at + 4 * j + i] := InvSbox(buf[at + 4 * j + i]);
      }
    }
    ByElements(b, at, InvSubBytes(BlockAt(b, at)), buf[..]);
  }

  method AddRoundKey(round: nat, buf: array<bv8>, at: nat, roundKey: array<bv8>)
    requires at + 16 <= buf.Length && buf != roundKey && 16 * round + 16 <= roundKey.Length
    modifies buf
    ensures buf[..] == Spliced(old(buf[..]), at, XorBlocks(BlockAt(old(buf[..]), at), RoundKey(roundKey[..], round)))
  {
    hide Xor;
    ghost var b := buf[..];
    for i := 0 to 4
      invariant forall k :: 0 <= k < buf.Length ==>
        buf[k] == if at <= k < at + 4 * i then Xor(b[k], roundKey[16 * round + (k - at)]) else b[k]
    {
      for j := 0 to 4
        invariant forall k :: 0 <= k < buf.Length ==>
          buf[k] == if at <= k < at + 4 * i + j then Xor(b[k], roundKey[16 * round + (k - at)]) else b[k]
      {
        buf[at + 4 * i + j] := Xor(buf[at + 4 * i + j], roundKey[16 * round + 4 * i + j]);
      }
    }
    ByElements(b, at, XorBlocks(BlockAt(b, at), RoundKey(roundKey[..], round)), buf[..]);
  }

  /** Four bytes change places in a cycle. */
  function Cycled(s: seq<bv8>, i: nat, j: nat, k: nat, l: nat): (r: seq<bv8>)
    requires i < |s| && j < |s| && k < |s| && l < |s|
    ensures |r| == |s|
  {
    s[i := s[j]][j := s[k]][k := s[l]][l := s[i]]
  }

  function Swapped(s: seq<bv8>, i: nat, j: nat): (r: seq<bv8>)
    requires i < |s| && j < |s|
    ensures |r| == |s|
  {
    s[i := s[j]][j := s[i]]
  }

  method Cycle(buf: array<bv8>, i: nat, j: nat, k: nat, l: nat)
    requires i < buf.Length && j < buf.Length && k < buf.Length && l < buf.Length && i != j && i != k && i != l
    requires j != k && j != l && k != l
    modifies buf
    ensures buf[..] == Cycled(old(buf[..]), i, j, k, l)
  {
    var temp := buf[i];
    buf[i] := buf[j];
    buf[j] := buf[k];
    buf[k] := buf[l];
    buf[l] := temp;
  }

  method Swap(buf: array<bv8>, i: nat, j: nat)
    requires i < buf.Length && j < buf.Length && i != j
    modifies buf
    ensures buf[..] == Swapped(old(buf[..]), i, j)
  {
    var temp := buf[i];
    buf[i] := buf[j];
    buf[j] := temp;
  }

  lemma UpdateInside(b: seq<bv8>, at: nat, s: Block, i: nat, v: bv8)
    requires at + 16 <= |b| && i < 16
    ensures Spliced(b, at, s)[at + i] == s[i] && Spliced(b, at, s)[at + i := v] == Spliced(b, at, s[i := v])
  {
  }

  lemma CycleInside(b: seq<bv8>, at: nat, s: Block, i: nat, j: nat, k: nat, l: nat)
    requires at + 16 <= |b| && i < 16 && j < 16 && k < 16 && l < 16
    ensures Cycled(Spliced(b, at, s), at + i, at + j, at + k, at + l) == Spliced(b, at, Cycled(s, i, j, k, l))
  {
    hide Spliced;
    UpdateInside(b, at, s, i, s[j]);
    UpdateInside(b, at, s, j, s[k]);
    UpdateInside(b, at, s, k, s[l]);
    UpdateInside(b, at, s, l, s[i]);
    UpdateInside(b, at, s[i := s[j]], j, s[k]);
    UpdateInside(b, at, s[i := s[j]][j := s[k]], k, s[l]);
    UpdateInside(b, at, s[i := s[j]][j := s[k]][k := s[l]], l, s[i]);
  }

  lemma SwapInside(b: seq<bv8>, at: nat, s: Block, i: nat, j: nat)
    requires at + 16 <= |b| && i < 16 && j < 16
    ensures Swapped(Spliced(b, at, s), at + i, at + j) == Spliced(b, at, Swapped(s, i, j))
  {
    hide Spliced;
    UpdateInside(b, at, s, i, s[j]);
    UpdateInside(b, at, s, j, s[i]);
    UpdateInside(b, at, s[i := s[j]], j, s[i]);
  }

  /** Shifting the rows moves the bytes of each row in cycles. */
  lemma ShiftRowsCycles(s: Block)
    ensures ShiftRows(s) == Cycled(Swapped(Swapped(Cycled(s, 1, 5, 9, 13), 2, 10), 6, 14), 3, 15, 11, 7)
  {
    ShiftRowsIs(s);
    hide ShiftRows;
  }

  lemma InvShiftRowsCycles(s: Block)
    ensures InvShiftRows(s) == Cycled(Swapped(Swapped(Cycled(s, 13, 9, 5, 1), 2, 10), 6, 14), 3, 7, 11, 15)
  {
    InvShiftRowsIs(s);
    hide InvShiftRows;
  }

  method ShiftRowsInPlace(buf: array<bv8>, at: nat)
    requires at + 16 <= buf.Length
    modifies buf
    ensures buf[..] == Spliced(old(buf[..]), at, ShiftRows(BlockAt(old(buf[..]), at)))
  {
    hide *;
    ghost var b := buf[..];
    ghost var s0: Block := BlockAt(b, at);
    ghost var s1: Block := Cycled(s0, 1, 5, 9, 13);
    ghost var s2: Block := Swapped(s1, 2, 10);
    ghost var s3: Block := Swapped(s2, 6, 14);
    Again(b, at, s0);
    CycleInside(b, at, s0, 1, 5, 9, 13);
    Cycle(buf, at + 1, at + 5, at + 9, at + 13);
    SwapInside(b, at, s1, 2, 10);
    Swap(buf, at + 2, at + 10);
    SwapInside(b, at, s2, 6, 14);
    Swap(buf, at + 6, at + 14);
    CycleInside(b, at, s3, 3, 15, 11, 7);
    Cycle(buf, at + 3, at + 15, at + 11, at + 7);
    ShiftRowsCycles(s0);
  }

  method InvShiftRowsInPlace(buf: array<bv8>, at: nat)
    requires at + 16 <= buf.Length
    modifies buf
    ensures buf[..] == Spliced(old(buf[..]), at, InvShiftRows(BlockAt(old(buf[..]), at)))
  {
    hide *;
    ghost var b := buf[..];
    ghost var s0: Block := BlockAt(b, at);
    ghost var s1: Block := Cycled(s0, 13, 9, 5, 1);
    ghost var s2: Block := Swapped(s1, 2, 10);
    ghost var s3: Block := Swapped(s2, 6, 14);
    Again(b, at, s0);
    CycleInside(b, at, s0, 13, 9, 5, 1);
    Cycle(buf, at + 13, at + 9, at + 5, at + 1);
    SwapInside(b, at, s1, 2, 10);
    Swap(buf, at + 2, at + 10);
    SwapInside(b, at, s2, 6, 14);
    Swap(buf, at + 6, at + 14);
    CycleInside(b, at, s3, 3, 7, 11, 15);
    Cycle(buf, at + 3, at + 7, at + 11, at + 15);
    InvShiftRowsCycles(s0);
  }

  // ----- mixing columns -----

  /** Four bytes replaced. */
  function Replaced(s: seq<bv8>, p: nat, a: bv8, b: bv8, c: bv8, d: bv8): (r: seq<bv8>)
    requires p + 4 <= |s|
    ensures |r| == |s|
  {
    s[p := a][p + 1 := b][p + 2 := c][p + 3 := d]
  }

  lemma ReplaceInside(b: seq<bv8>, at: nat, s: Block, p: nat, w: bv8, x: bv8, y: bv8, z: bv8)
    requires at + 16 <= |b| && p + 4 <= 16
    ensures Replaced(Spliced(b, at, s), at + p, w, x, y, z) == Spliced(b, at, Replaced(s, p, w, x, y, z))
  {
    hide Spliced;
    UpdateInside(b, at, s, p, w);
    UpdateInside(b, at, s[p := w], p + 1, x);
    UpdateInside(b, at, s[p := w][p + 1 := x], p + 2, y);
    UpdateInside(b, at, s[p := w][p + 1 := x][p + 2 := y], p + 3, z);
  }

  /** The sum of a column's bytes does not depend on where it starts. */
  lemma SumRotates(a: bv8, b: bv8, c: bv8, d: bv8)
    ensures Xor(Xor(Xor(b, c), d), a) == Xor(Xor(Xor(a, b), c), d)
  {
    hide Xor, Quad;
    SumIsQuad(a, b, c, d);
    SumIsQuad(b, c, d, a);
    QuadRotate(a, b, c, d);
  }

  lemma SumIsQuad(a: bv8, b: bv8, c: bv8, d: bv8)
    ensures Xor(Xor(Xor(a, b), c), d) == Quad(a, b, c, d)
  {
    hide Xor;
    XorAssociates(Xor(a, b), c, d);
  }

  method MixColumn(buf: array<bv8>, p: nat)
    requires p + 4 <= buf.Length
    modifies buf
    ensures var a, b, c, d := old(buf[p]), old(buf[p + 1]), old(buf[p + 2]), old(buf[p + 3]);
      buf[..] == Replaced(old(buf[..]), p, Mixed(a, b, c, d), Mixed(b, c, d, a), Mixed(c, d, a, b), Mixed(d, a, b, c))
  {
    hide Xor, Xtime, Mixed;
    ghost var a, b, c, d := buf[p], buf[p + 1], buf[p + 2], buf[p + 3];
    SumRotates(a, b, c, d);
    SumRotates(b, c, d, a);
    SumRotates(c, d, a, b);
    MixedAsComputed(a, b, c, d);
    MixedAsComputed(b, c, d, a);
    MixedAsComputed(c, d, a, b);
    MixedAsComputed(d, a, b, c);
    var t := buf[p];
    var sum := Xor(Xor(Xor(buf[p], buf[p + 1]), buf[p + 2]), buf[p + 3]);
    var tm := Xor(buf[p], buf[p + 1]);
    tm := Xtime(tm);
    buf[p] := Xor(buf[p], Xor(tm, sum));
    tm := Xor(buf[p + 1], buf[p + 2]);
    tm := Xtime(tm);
    buf[p + 1] := Xor(buf[p + 1], Xor(tm, sum));
    tm := Xor(buf[p + 2], buf[p + 3]);
    tm := Xtime(tm);
    buf[p + 2] := Xor(buf[p + 2], Xor(tm, sum));
    tm := Xor(buf[p + 3], t);
    tm := Xtime(tm);
    buf[p + 3] := Xor(buf[p + 3], Xor(tm, sum));
  }

  method UnmixColumn(buf: array<bv8>, p: nat)
    requires p + 4 <= buf.Length
    modifies buf
    ensures var a, b, c, d := old(buf[p]), old(buf[p + 1]), old(buf[p + 2]), old(buf[p + 3]);
      buf[..] == Replaced(old(buf[..]), p, Unmixed(a, b, c, d), Unmixed(b, c, d, a), Unmixed(c, d, a, b),
          Unmixed(d, a, b, c))
  {
    hide Xor, Multiply, Product;
    var a, b, c, d := buf[p], buf[p + 1], buf[p + 2], buf[p + 3];
    Multiples(a);
    Multiples(b);
    Multiples(c);
    Multiples(d);
    SumRotates(Product(b, 14), Product(c, 11), Product(d, 13), Product(a, 9));
    SumRotates(Product(a, 9), Product(b, 14), Product(c, 11), Product(d, 13));
    SumRotates(Product(d, 9), Product(a, 14), Product(b, 11), Product(c, 13));
    SumRotates(Product(c, 9), Product(d, 14), Product(a, 11), Product(b, 13));
    SumRotates(Product(b, 13), Product(c, 9), Product(d, 14), Product(a, 11));
    SumRotates(Product(a, 13), Product(b, 9), Product(c, 14), Product(d, 11));
    SumRotates(Product(a, 11), Product(b, 13), Product(c, 9), Product(d, 14));
    SumRotates(Product(d, 13), Product(a, 9), Product(b, 14), Product(c, 11));
    SumRotates(Product(d, 14), Product(a, 11), Product(b, 13), Product(c, 9));
    SumRotates(Product(c, 14), Product(d, 11), Product(a, 13), Product(b, 9));
    SumRotates(Product(d, 11), Product(a, 13), Product(b, 9), Product(c, 14));
    buf[p] := Xor(Xor(Xor(Multiply(a, 14), Multiply(b, 11)), Multiply(c, 13)), Multiply(d, 9));
    buf[p + 1] := Xor(Xor(Xor(Multiply(a, 9), Multiply(b, 14)), Multiply(c, 11)), Multiply(d, 13));
    buf[p + 2] := Xor(Xor(Xor(Multiply(a, 13), Multiply(b, 9)), Multiply(c, 14)), Multiply(d, 11));
    buf[p + 3] := Xor(Xor(Xor(Multiply(a, 11), Multiply(b, 13)), Multiply(c, 9)), Multiply(d, 14));
  }

  lemma Multiples(x: bv8)
    ensures Multiply(x, 14) == Product(x, 14) && Multiply(x, 11) == Product(x, 11)
    ensures Multiply(x, 13) == Product(x, 13) && Multiply(x, 9) == Product(x, 9)
  {
    hide Multiply, Product;
    MultiplyIsProduct(x, 14);
    MultiplyIsProduct(x, 11);
    MultiplyIsProduct(x, 13);
    MultiplyIsProduct(x, 9);
  }

  /** The first n columns from m, the others from s. */
  function UpTo(s: Block, m: Block, n: nat): Block {
    seq(16, i requires 0 <= i < 16 => if i < 4 * n then m[i] else s[i])
  }

  lemma UpToNext(s: Block, m: Block, n: nat)
    requires n < 4
    ensures UpTo(s, m, n + 1) == Replaced(UpTo(s, m, n), 4 * n, m[4 * n], m[4 * n + 1], m[4 * n + 2], m[4 * n + 3])
    ensures forall i :: 4 * n <= i < 16 ==> UpTo(s, m, n)[i] == s[i]
  {
  }

  lemma UpToEnds(s: Block, m: Block)
    ensures UpTo(s, m, 0) == s && UpTo(s, m, 4) == m
  {
  }

  lemma PlaceIs(n: nat, r: nat, k: nat)
    requires n < 4 && r < 4
    ensures Place(4 * n + r, k) == 4 * n + (r + k) % 4
  {
    assert (4 * n + r) / 4 == n;
  }

  /** Byte r of column n, mixed and unmixed. */
  lemma ColumnByte(s: Block, n: nat, r: nat)
    requires n < 4 && r < 4
    ensures var a, b, c, d := s[4 * n + r], s[4 * n + (r + 1) % 4], s[4 * n + (r + 2) % 4], s[4 * n + (r + 3) % 4];
      MixColumns(s)[4 * n + r] == Mixed(a, b, c, d) && InvMixColumns(s)[4 * n + r] == Unmixed(a, b, c, d)
  {
    hide Mixed, Unmixed, Place;
    PlaceIs(n, r, 0);
    PlaceIs(n, r, 1);
    PlaceIs(n, r, 2);
    PlaceIs(n, r, 3);
  }

  lemma MixedNext(s: Block, n: nat)
    requires n < 4
    ensures var m := MixColumns(s); var a, b, c, d := s[4 * n], s[4 * n + 1], s[4 * n + 2], s[4 * n + 3];
      m[4 * n] == Mixed(a, b, c, d) && m[4 * n + 1] == Mixed(b, c, d, a) && m[4 * n + 2] == Mixed(c, d, a, b)
          && m[4 * n + 3] == Mixed(d, a, b, c)
    ensures var m := InvMixColumns(s); var a, b, c, d := s[4 * n], s[4 * n + 1], s[4 * n + 2], s[4 * n + 3];
      m[4 * n] == Unmixed(a, b, c, d) && m[4 * n + 1] == Unmixed(b, c, d, a) && m[4 * n + 2] == Unmixed(c, d, a, b)
          && m[4 * n + 3] == Unmixed(d, a, b, c)
  {
    hide Mixed, MixColumns, Unmixed, InvMixColumns;
    ColumnByte(s, n, 0);
    ColumnByte(s, n, 1);
    ColumnByte(s, n, 2);
    ColumnByte(s, n, 3);
  }

  method MixColumnsInPlace(buf: array<bv8>, at: nat)
    requires at + 16 <= buf.Length
    modifies buf
    ensures buf[..] == Spliced(old(buf[..]), at, MixColumns(BlockAt(old(buf[..]), at)))
  {
    hide *;
    ghost var b := buf[..];
    ghost var s: Block := BlockAt(b, at);
    ghost var m: Block := MixColumns(s);
    Again(b, at, s);
    UpToEnds(s, m);
    for i := 0 to 4
      invariant buf[..] == Spliced(b, at, UpTo(s, m, i))
    {
      ghost var t: Block := UpTo(s, m, i);
      ghost var now := buf[..];
      FourInside(b, at, t, 4 * i);
      assert now[at + 4 * i] == buf[at + 4 * i] && now[at + 4 * i + 1] == buf[at + 4 * i + 1];
      assert now[at + 4 * i + 2] == buf[at + 4 * i + 2] && now[at + 4 * i + 3] == buf[at + 4 * i + 3];
      MixColumn(buf, at + 4 * i);
      MixedNext(s, i);
      UpToNext(s, m, i);
      ReplaceInside(b, at, t, 4 * i, m[4 * i], m[4 * i + 1], m[4 * i + 2], m[4 * i + 3]);
    }
  }

  lemma FourInside(b: seq<bv8>, at: nat, s: Block, i: nat)
    requires at + 16 <= |b| && i + 4 <= 16
    ensures var now := Spliced(b, at, s);
      && now[at + i] == s[i] && now[at + i + 1] == s[i + 1]
      && now[at + i + 2] == s[i + 2] && now[at + i + 3] == s[i + 3]
  {
  }

  method InvMixColumnsInPlace(buf: array<bv8>, at: nat)
    requires at + 16 <= buf.Length
    modifies buf
    ensures buf[..] == Spliced(old(buf[..]), at, InvMixColumns(BlockAt(old(buf[..]), at)))
  {
    hide *;
    ghost var b := buf[..];
    ghost var s: Block := BlockAt(b, at);
    ghost var m: Block := InvMixColumns(s);
    Again(b, at, s);
    UpToEnds(s, m);
    for i := 0 to 4
      invariant buf[..] == Spliced(b, at, UpTo(s, m, i))
    {
      ghost var t: Block := UpTo(s, m, i);
      ghost var now := buf[..];
      FourInside(b, at, t, 4 * i);
      assert now[at + 4 * i] == buf[at + 4 * i] && now[at + 4 * i + 1] == buf[at + 4 * i + 1];
      assert now[at + 4 * i + 2] == buf[at + 4 * i + 2] && now[at + 4 * i + 3] == buf[at + 4 * i + 3];
      UnmixColumn(buf, at + 4 * i);
      MixedNext(s, i);
      UpToNext(s, m, i);
      ReplaceInside(b, at, t, 4 * i, m[4 * i], m[4 * i + 1], m[4 * i + 2], m[4 * i + 3]);
    }
  }

  // ----- the whole cipher -----

  /** Encrypts sixteen bytes of a buffer. */
  method Cipher(buf: array<bv8>, at: nat, roundKey: array<bv8>)
    requires at + 16 <= buf.Length && buf != roundKey && roundKey.Length == 240
    modifies buf
    ensures buf[..] == Spliced(old(buf[..]), at, Encrypt(BlockAt(old(buf[..]), at), roundKey[..]))
  {
    hide *;
    ghost var b, w := buf[..], roundKey[..];
    ghost var s: Block := BlockAt(b, at);
    Again(b, at, s);
    AddRoundKey(0, buf, at, roundKey);
    RoundsFirst(s, w);
    var round: nat := 1;
    while true
      invariant 1 <= round <= 14 && buf[..] == Spliced(b, at, Rounds(s, w, round - 1))
      decreases 14 - round
    {
      ghost var t: Block := Rounds(s, w, round - 1);
      Again(b, at, t);
      SubBytesInPlace(buf, at);
      Again(b, at, SubBytes(t));
      ShiftRowsInPlace(buf, at);
      Again(b, at, ShiftRows(SubBytes(t)));
      if round == 14 {
        break;
      }
      MixColumnsInPlace(buf, at);
      Again(b, at, MixColumns(ShiftRows(SubBytes(t))));
      AddRoundKey(round, buf, at, roundKey);
      RoundsNext(s, w, round);
      round := round + 1;
    }
    AddRoundKey(14, buf, at, roundKey);
    EncryptIs(s, w);
  }

  lemma RoundsFirst(s: Block, w: seq<bv8>)
    requires |w| == 240
    ensures Rounds(s, w, 0) == XorBlocks(s, RoundKey(w, 0))
  {
  }

  lemma RoundsNext(s: Block, w: seq<bv8>, round: nat)
    requires |w| == 240 && 1 <= round < 14
    ensures Rounds(s, w, round) == XorBlocks(MixColumns(ShiftRows(SubBytes(Rounds(s, w, round - 1)))),
        RoundKey(w, round))
  {
    hide MixColumns, ShiftRows, SubBytes, XorBlocks, RoundKey;
  }

  lemma EncryptIs(s: Block, w: seq<bv8>)
    requires |w| == 240
    ensures Encrypt(s, w) == XorBlocks(ShiftRows(SubBytes(Rounds(s, w, 13))), RoundKey(w, 14))
  {
    hide ShiftRows, SubBytes, XorBlocks, RoundKey, Rounds;
  }

  /** Decrypts sixteen bytes of a buffer. */
  method InvCipher(buf: array<bv8>, at: nat, roundKey: array<bv8>)
    requires at + 16 <= buf.Length && buf != roundKey && roundKey.Length == 240
    modifies buf
    ensures buf[..] == Spliced(old(buf[..]), at, Decrypt(BlockAt(old(buf[..]), at), roundKey[..]))
  {
    hide *;
    ghost var b, w := buf[..], roundKey[..];
    ghost var s: Block := BlockAt(b, at);
    Again(b, at, s);
    AddRoundKey(14, buf, at, roundKey);
    ghost var u: Block := XorBlocks(s, RoundKey(w, 14));
    DecryptIs(s, w);
    var round: nat := 13;
    while true
      invariant round <= 13 && buf[..] == Spliced(b, at, u) && InvRounds(u, w, round) == Decrypt(s, w)
      decreases round
    {
      Again(b, at, u);
      InvShiftRowsInPlace(buf, at);
      Again(b, at, InvShiftRows(u));
      InvSubBytesInPlace(buf, at);
      Again(b, at, InvSubBytes(InvShiftRows(u)));
      AddRoundKey(round, buf, at, roundKey);
      ghost var t: Block := XorBlocks(InvSubBytes(InvShiftRows(u)), RoundKey(w, round));
      Again(b, at, t);
      InvRoundsNext(u, w, round);
      if round == 0 {
        break;
      }
      InvMixColumnsInPlace(buf, at);
      u := InvMixColumns(t);
      round := round - 1;
    }
  }

  lemma InvRoundsNext(s: Block, w: seq<bv8>, round: nat)
    requires |w| == 240 && round < 14
    ensures var t := XorBlocks(InvSubBytes(InvShiftRows(s)), RoundKey(w, round));
      InvRounds(s, w, round) == if round == 0 then t else InvRounds(InvMixColumns(t), w, round - 1)
  {
    hide InvMixColumns, InvShiftRows, InvSubBytes, XorBlocks, RoundKey;
  }

  lemma DecryptIs(s: Block, w: seq<bv8>)
    requires |w| == 240
    ensures Decrypt(s, w) == InvRounds(XorBlocks(s, RoundKey(w, 14)), w, 13)
  {
    hide XorBlocks, RoundKey, InvRounds;
  }

  /** Expands a key. */
  method KeyExpansion(roundKey: array<bv8>, key: seq<bv8>)
    requires roundKey.Length == 240 && |key| == 32
    modifies roundKey
    ensures roundKey[..] == Expanded(key)
  {
    hide *;
    CopyKey(roundKey, key);
    FirstWords(key);
    for i := 8 to 60
      invariant roundKey[..4 * i] == Words(key, i)
    {
      AddWord(roundKey, i, Words(key, i));
      WordsNext(key, i + 1);
    }
    assert roundKey[..240] == roundKey[..];
    ExpandedIs(key);
  }

  lemma ExpandedIs(key: seq<bv8>)
    requires |key| == 32
    ensures Expanded(key) == Words(key, 60)
  {
    hide Words;
  }

  /** The first words are the key itself. */
  method CopyKey(roundKey: array<bv8>, key: seq<bv8>)
    requires roundKey.Length == 240 && |key| == 32
    modifies roundKey
    ensures roundKey[..32] == key[..32]
  {
    for i := 0 to 8
      invariant roundKey[..4 * i] == key[..4 * i]
    {
      roundKey[4 * i] := key[4 * i];
      roundKey[4 * i + 1] := key[4 * i + 1];
      roundKey[4 * i + 2] := key[4 * i + 2];
      roundKey[4 * i + 3] := key[4 * i + 3];
    }
  }

  /** Computes and stores word i. */
  method AddWord(roundKey: array<bv8>, i: nat, ghost w: seq<bv8>)
    requires roundKey.Length == 240 && 8 <= i < 60 && roundKey[..4 * i] == w
    modifies roundKey
    ensures roundKey[..4 * i + 4] == w + XorWords(w[4 * i - 32..4 * i - 28], Temp(w[4 * i - 4..4 * i], i))
  {
    hide *;
    assert roundKey[4 * i - 4..4 * i] == w[4 * i - 4..4 * i];
    var a, b, c, d := NextWord(roundKey, i);
    StoreWord(roundKey, i, a, b, c, d, w);
  }

  /** Stores word i: the word eight back plus the given one. */
  method StoreWord(roundKey: array<bv8>, i: nat, a: bv8, b: bv8, c: bv8, d: bv8, ghost w: seq<bv8>)
    requires roundKey.Length == 240 && 8 <= i < 60 && roundKey[..4 * i] == w
    modifies roundKey
    ensures roundKey[..4 * i + 4] == w + XorWords(w[4 * i - 32..4 * i - 28], [a, b, c, d])
  {
    hide Xor;
    var j, k := 4 * i, 4 * (i - 8);
    assert [roundKey[k], roundKey[k + 1], roundKey[k + 2], roundKey[k + 3]] == w[k..k + 4];
    roundKey[j] := Xor(roundKey[k], a);
    roundKey[j + 1] := Xor(roundKey[k + 1], b);
    roundKey[j + 2] := Xor(roundKey[k + 2], c);
    roundKey[j + 3] := Xor(roundKey[k + 3], d);
    assert roundKey[..4 * i] == w;
  }

  lemma FirstWords(key: seq<bv8>)
    requires |key| == 32
    ensures Words(key, 8) == key[..32]
  {
  }

  lemma WordsNext(key: seq<bv8>, n: nat)
    requires |key| == 32 && 8 < n <= 60
    ensures var w := Words(key, n - 1);
      Words(key, n)
      == w + XorWords(w[4 * n - 36..4 * n - 32], Temp(w[4 * n - 8..4 * n - 4], n - 1))
  {
    hide XorWords, Temp;
  }

  /** The word to add, from the word before. */
  method NextWord(roundKey: array<bv8>, i: nat) returns (a: bv8, b: bv8, c: bv8, d: bv8)
    requires roundKey.Length == 240 && 8 <= i < 60
    ensures [a, b, c, d] == Temp(roundKey[4 * i - 4..4 * i], i)
  {
    hide *;
    var k := 4 * (i - 1);
    a, b, c, d := roundKey[k], roundKey[k + 1], roundKey[k + 2], roundKey[k + 3];
    assert roundKey[4 * i - 4..4 * i] == [a, b, c, d];
    TempIs(a, b, c, d, i);
    if i % 8 == 0 {
      a, b, c, d := b, c, d, a;
      a, b, c, d := Sbox(a), Sbox(b), Sbox(c), Sbox(d);
      a := Xor(a, Rcon(i / 8));
    }
    if i % 8 == 4 {
      a, b, c, d := Sbox(a), Sbox(b), Sbox(c), Sbox(d);
    }
  }

  lemma TempIs(a: bv8, b: bv8, c: bv8, d: bv8, i: nat)
    requires i < 60
    ensures Temp([a, b, c, d], i) ==
      if i % 8 == 0 then [Xor(Sbox(b), Rcon(i / 8)), Sbox(c), Sbox(d), Sbox(a)]
      else if i % 8 == 4 then [Sbox(a), Sbox(b), Sbox(c), Sbox(d)]
      else [a, b, c, d]
  {
    hide Sbox, Xor;
    XorNothing(Sbox(c));
    XorNothing(Sbox(d));
    XorNothing(Sbox(a));
  }
}
