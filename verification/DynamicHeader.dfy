/** The header of a dynamic block, RFC 1951 section 3.2.7: the code lengths of both codes, themselves coded. */
module DynamicHeader {
  import opened Bits
  import opened CanonicalCode
  import opened Deflate
  import opened DeflateEncoding
  import opened CodeLengthPacking

  /** When symbol s is sent. */
  function Place(s: nat): nat
    requires s < 19
  {
    if s >= 16 then s - 16 else if s == 0 then 3 else if s >= 8 then 2 * s - 12 else 19 - 2 * s
  }

  lemma OrderOfPlace(s: nat)
    requires s < 19
    ensures Place(s) < 19 && Order(Place(s)) == s
  {
  }

  lemma PlaceOfOrder(i: nat)
    requires i < 19
    ensures Place(Order(i)) == i
  {
  }

  lemma OrderPlaces()
    ensures forall s :: 0 <= s < 19 ==> Place(s) < 19 && Order(Place(s)) == s
    ensures forall i :: 0 <= i < 19 ==> Place(Order(i)) == i
  {
    hide Place, Order;
    forall s | 0 <= s < 19 ensures Place(s) < 19 && Order(Place(s)) == s {
      OrderOfPlace(s);
    }
    forall i | 0 <= i < 19 ensures Place(Order(i)) == i {
      PlaceOfOrder(i);
    }
  }

  /** The bits of the first n code length code lengths. */
  function ClBits(cl: seq<nat>, n: nat): (r: seq<bool>)
    requires |cl| == 19 && n <= 19
    ensures |r| == 3 * n
  {
    if n == 0 then [] else ClBits(cl, n - 1) + NatBits(cl[Order(n - 1)], 3)
  }

  lemma {:induction false} ClBitsAt(cl: seq<nat>, n: nat, i: nat, bits: seq<bool>, pos: nat)
    requires |cl| == 19 && i < n <= 19 && At(bits, pos, ClBits(cl, n))
    ensures At(bits, pos + 3 * i, NatBits(cl[Order(i)], 3))
    decreases n
  {
    AtAppend(bits, pos, ClBits(cl, n - 1), NatBits(cl[Order(n - 1)], 3));
    if i < n - 1 {
      ClBitsAt(cl, n - 1, i, bits, pos);
    }
  }

  /** The first i lengths have been read; the others are zero. */
  ghost predicate ReadSoFar(cl: seq<nat>, cur: seq<nat>, i: nat) {
    |cl| == |cur| == 19 && forall s :: 0 <= s < 19 ==> cur[s] == if Place(s) < i then cl[s] else 0
  }

  lemma {:induction false} ClRoundTrip(cl: seq<nat>, n: nat, bits: seq<bool>, pos: nat, cur: seq<nat>, i: nat)
    requires ReadSoFar(cl, cur, i) && i <= n <= 19 && At(bits, pos, ClBits(cl, n))
    requires forall s :: 0 <= s < 19 ==> cl[s] < 8 && (n <= Place(s) ==> cl[s] == 0)
    ensures ClLengths(n, bits, pos, cur, i) == Some(cl)
    decreases n - i
  {
    hide Order, At, ClBits, NatBits, Low;
    OrderPlaces();
    if i == n {
      assert cur == cl;
    } else {
      ClField(cl, n, i, bits, pos);
      var next := cur[Order(i) := cl[Order(i)]];
      assert ReadSoFar(cl, next, i + 1);
      ClRoundTrip(cl, n, bits, pos, next, i + 1);
    }
  }

  lemma ClField(cl: seq<nat>, n: nat, i: nat, bits: seq<bool>, pos: nat)
    requires |cl| == 19 && i < n <= 19 && At(bits, pos, ClBits(cl, n)) && cl[Order(i)] < 8
    ensures Field(bits, pos + 3 * i, 3) == Some(cl[Order(i)])
  {
    hide Order, At, ClBits, NatBits, Low;
    ClBitsAt(cl, n, i, bits, pos);
    FieldOf(bits, pos + 3 * i, cl[Order(i)], 3);
    Pow2Values();
    LowSmall(cl[Order(i)], 3);
  }

  /** The three counts that open the header. */
  function CountBits(nLit: nat, nDist: nat, nCl: nat): (r: seq<bool>)
    requires 257 <= nLit && 1 <= nDist && 4 <= nCl
    ensures |r| == 14
  {
    NatBits(nLit - 257, 5) + NatBits(nDist - 1, 5) + NatBits(nCl - 4, 4)
  }

  lemma CountsRoundTrip(nLit: nat, nDist: nat, nCl: nat, bits: seq<bool>, pos: nat)
    requires 257 <= nLit <= 288 && 1 <= nDist <= 32 && 4 <= nCl <= 19
    requires At(bits, pos, CountBits(nLit, nDist, nCl))
    ensures CountsAre(bits, pos, nLit, nDist, nCl)
  {
    var a, b, c := NatBits(nLit - 257, 5), NatBits(nDist - 1, 5), NatBits(nCl - 4, 4);
    hide NatBits, BitsNat, At, Pow2;
    AtAppend(bits, pos, a + b, c);
    AtAppend(bits, pos, a, b);
    Pow2Values();
    NumberAt(bits, pos, nLit - 257, 5);
    NumberAt(bits, pos + 5, nDist - 1, 5);
    NumberAt(bits, pos + 10, nCl - 4, 4);
  }

  lemma NumberAt(bits: seq<bool>, pos: nat, v: nat, n: nat)
    requires At(bits, pos, NatBits(v, n)) && v < Pow2(n)
    ensures pos + n <= |bits| && BitsNat(bits[pos..pos + n]) == v
  {
    hide NatBits, BitsNat, Pow2;
    BitsNatOfNatBits(v, n);
    LowSmall(v, n);
  }

  /** The bits of the header after the block type. */
  function HeaderBits(nLit: nat, nDist: nat, nCl: nat, cl: seq<nat>, items: seq<Item>): seq<bool>
    requires 257 <= nLit && 1 <= nDist && 4 <= nCl <= 19 && |cl| == 19 && ItemsSendable(cl, items)
  {
    CountBits(nLit, nDist, nCl) + ClBits(cl, nCl) + ItemsBits(cl, items)
  }

  /** What the block writer guarantees about a header. */
  ghost predicate HeaderOk(ll: seq<nat>, d: seq<nat>, nCl: nat, cl: seq<nat>, items: seq<Item>) {
    && 257 <= |ll| <= 288 && 1 <= |d| <= 32 && 4 <= nCl <= 19
    && CodeOk(ll) && CodeOk(d)
    && |cl| == 19 && CodeOk(cl) && Feasible(cl)
    && (forall s :: 0 <= s < 19 ==> cl[s] < 8 && (nCl <= Place(s) ==> cl[s] == 0))
    && ItemsSendable(cl, items) && ItemsOk([], items) && UnpackAll([], items) == ll + d
  }

  /** The header at pos gives the codes ll and d, and ends at end. */
  ghost predicate HeaderGives(bits: seq<bool>, pos: nat, ll: seq<nat>, d: seq<nat>, end: nat) {
    DynamicCodes(bits, pos) == Some(Codes(ll, d, end))
  }

  /** The decoder gets both codes back from the header. */
  lemma HeaderRoundTrip(ll: seq<nat>, d: seq<nat>, nCl: nat, cl: seq<nat>, items: seq<Item>, bits: seq<bool>, pos: nat)
    requires HeaderOk(ll, d, nCl, cl, items)
    requires At(bits, pos, HeaderBits(|ll|, |d|, nCl, cl, items))
    ensures HeaderGives(bits, pos, ll, d, pos + |HeaderBits(|ll|, |d|, nCl, cl, items)|)
  {
    hide HeaderGives, HeaderBits, At, CountBits, ClBits, ItemsBits, CodeOk, Feasible, UnpackAll, ItemsOk, Place;
    HeaderPieces(|ll|, |d|, nCl, cl, items, bits, pos);
    HeaderReads(ll, d, nCl, cl, items, bits, pos);
  }

  lemma HeaderPieces(nLit: nat, nDist: nat, nCl: nat, cl: seq<nat>, items: seq<Item>, bits: seq<bool>, pos: nat)
    requires 257 <= nLit && 1 <= nDist && 4 <= nCl <= 19 && |cl| == 19 && ItemsSendable(cl, items)
    requires At(bits, pos, HeaderBits(nLit, nDist, nCl, cl, items))
    ensures At(bits, pos, CountBits(nLit, nDist, nCl)) && At(bits, pos + 14, ClBits(cl, nCl))
    ensures At(bits, pos + 14 + 3 * nCl, ItemsBits(cl, items))
    ensures |HeaderBits(nLit, nDist, nCl, cl, items)| == 14 + 3 * nCl + |ItemsBits(cl, items)|
  {
    hide CountBits, ClBits, ItemsBits, At;
    AtAppend(bits, pos, CountBits(nLit, nDist, nCl) + ClBits(cl, nCl), ItemsBits(cl, items));
    AtAppend(bits, pos, CountBits(nLit, nDist, nCl), ClBits(cl, nCl));
  }

  ghost predicate CountsAre(bits: seq<bool>, pos: nat, nLit: nat, nDist: nat, nCl: nat) {
    && pos + 14 <= |bits|
    && BitsNat(bits[pos..pos + 5]) + 257 == nLit
    && BitsNat(bits[pos + 5..pos + 10]) + 1 == nDist
    && BitsNat(bits[pos + 10..pos + 14]) + 4 == nCl
  }

  ghost predicate ClIs(bits: seq<bool>, pos: nat, nCl: nat, cl: seq<nat>) {
    ClLengths(nCl, bits, pos, Repeat(0, 19), 0) == Some(cl)
  }

  ghost predicate LengthsAre(cl: seq<nat>, n: nat, bits: seq<bool>, pos: nat, lens: seq<nat>, end: nat) {
    Lengths(cl, n, bits, pos, []) == Some((lens, end))
  }

  lemma ClRead(cl: seq<nat>, nCl: nat, bits: seq<bool>, pos: nat)
    requires |cl| == 19 && nCl <= 19 && At(bits, pos, ClBits(cl, nCl))
    requires forall s :: 0 <= s < 19 ==> cl[s] < 8 && (nCl <= Place(s) ==> cl[s] == 0)
    ensures ClIs(bits, pos, nCl, cl)
  {
    assert ReadSoFar(cl, Repeat(0, 19), 0);
    hide At, ClBits, Place, ReadSoFar, ClLengths;
    ClRoundTrip(cl, nCl, bits, pos, Repeat(0, 19), 0);
  }

  lemma LengthsRead(cl: seq<nat>, items: seq<Item>, lens: seq<nat>, bits: seq<bool>, pos: nat)
    requires Feasible(cl) && ItemsSendable(cl, items) && ItemsOk([], items) && UnpackAll([], items) == lens
    requires At(bits, pos, ItemsBits(cl, items))
    ensures LengthsAre(cl, |lens|, bits, pos, lens, pos + |ItemsBits(cl, items)|)
  {
    hide At, ItemsBits, ItemsOk, UnpackAll, Feasible, Lengths;
    LengthsRoundTrip(cl, |lens|, items, bits, pos, []);
  }

  lemma HeaderReads(ll: seq<nat>, d: seq<nat>, nCl: nat, cl: seq<nat>, items: seq<Item>, bits: seq<bool>, pos: nat)
    requires HeaderOk(ll, d, nCl, cl, items)
    requires At(bits, pos, CountBits(|ll|, |d|, nCl)) && At(bits, pos + 14, ClBits(cl, nCl))
    requires At(bits, pos + 14 + 3 * nCl, ItemsBits(cl, items))
    ensures HeaderGives(bits, pos, ll, d, pos + 14 + 3 * nCl + |ItemsBits(cl, items)|)
  {
    hide CountBits, ClBits, ItemsBits, CodeOk, Feasible, Place, At, HeaderGives, CountsAre, ClIs, LengthsAre, UnpackAll;
    CountsRoundTrip(|ll|, |d|, nCl, bits, pos);
    ClRead(cl, nCl, bits, pos + 14);
    LengthsRead(cl, items, ll + d, bits, pos + 14 + 3 * nCl);
    HeaderParts(bits, pos, ll, d, nCl, cl, pos + 14 + 3 * nCl + |ItemsBits(cl, items)|);
  }

  lemma HeaderParts(bits: seq<bool>, pos: nat, ll: seq<nat>, d: seq<nat>, nCl: nat, cl: seq<nat>, end: nat)
    requires CodeOk(ll) && CodeOk(d) && CodeOk(cl)
    requires CountsAre(bits, pos, |ll|, |d|, nCl) && ClIs(bits, pos + 14, nCl, cl)
    requires LengthsAre(cl, |ll + d|, bits, pos + 14 + 3 * nCl, ll + d, end)
    ensures HeaderGives(bits, pos, ll, d, end)
  {
    hide CodeOk, ClLengths, Lengths, BitsNat, Repeat;
    var lens := ll + d;
    assert lens[..|ll|] == ll && lens[|ll|..] == d;
  }
}
