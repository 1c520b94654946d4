/** The hash chains: each place is linked to the one before it whose three bytes have the same hash. */
module HashChains {
  import opened Bits
  import opened Deflate
  import opened LzParsing
  import opened MatchSearch

  // ----- hashing -----

  function Bits32(c: byte): bv32 {
    c as bv32
  }

  /** The hash after one more byte, in the source's 32-bit arithmetic. */
  function HashStep(h: bv32, c: bv32): bv32 {
    ((h << 5) ^ c) & 0x7FFF
  }

  /** The start of a hash, of two bytes and of three. */
  function HashTwo(a: bv32, b: bv32): bv32 {
    (a << 5) ^ b
  }

  function HashThree(a: bv32, b: bv32, c: bv32): bv32 {
    (a << 10) ^ (b << 5) ^ c
  }

  function Low15(h: bv32): bv15 {
    (h & 0x7FFF) as bv15
  }

  function HashIndex(h: bv32): (i: nat)
    ensures i < 32768
  {
    Low15(h) as nat
  }

  /** The hash h has taken in the bytes a and b last. */
  ghost predicate Rolling(h: bv32, a: bv32, b: bv32) {
    h & 0x3FF == HashTwo(a, b) & 0x3FF
  }

  lemma RollStarts(a: bv32, b: bv32)
    ensures Rolling(HashTwo(a, b), a, b)
  {
  }

  lemma RollBits(h: bv32, a: bv32, b: bv32, c: bv32)
    requires Rolling(h, a, b)
    ensures Low15(HashStep(h, c)) == Low15(HashThree(a, b, c)) && Rolling(HashStep(h, c), b, c)
  {
  }

  /** Each byte's step gives the hash of the last three. */
  lemma RollNext(h: bv32, a: bv32, b: bv32, c: bv32)
    requires Rolling(h, a, b)
    ensures HashIndex(HashStep(h, c)) == HashIndex(HashThree(a, b, c)) && Rolling(HashStep(h, c), b, c)
  {
    hide *;
    RollBits(h, a, b, c);
    SameIndex(HashStep(h, c), HashThree(a, b, c));
  }

  lemma SameIndex(g: bv32, h: bv32)
    requires Low15(g) == Low15(h)
    ensures HashIndex(g) == HashIndex(h)
  {
  }

  // ----- the chains -----

  /** The hash of the three bytes at p. */
  ghost function HashAt(input: seq<byte>, p: nat): (h: nat)
    requires p + 2 < |input|
    ensures h < DICT_SIZE
  {
    HashIndex(HashThree(Bits32(input[p]), Bits32(input[p + 1]), Bits32(input[p + 2])))
  }

  /** The last place before p, and not before base, with the hash h; none if it is negative. */
  ghost function Latest(input: seq<byte>, base: nat, p: nat, h: nat): (q: int)
    requires p + 1 < |input| || p <= base
    ensures q < p && (0 <= q ==> base <= q && q + 2 < |input| && HashAt(input, q) == h)
    decreases p
  {
    if p <= base then -1 else if HashAt(input, p - 1) == h then p - 1 else Latest(input, base, p - 1, h)
  }

  /** A link to the place q has its low 16 bits; 0 stands for none. */
  ghost function Link(q: int): u16 {
    if q < 0 then 0 else q % 65536
  }

  /** Up to which place there are three bytes. */
  ghost function Hashed(input: seq<byte>): nat {
    if |input| < 2 then 0 else |input| - 2
  }

  /** The last place of each hash, and of each place in the window the one before it with the same hash. */
  ghost predicate Linked(next: seq<u16>, hash: seq<u16>, input: seq<byte>, base: nat) {
    && |next| == DICT_SIZE && |hash| == DICT_SIZE && base <= |input|
    && (forall h: nat :: h < DICT_SIZE ==> hash[h] == Link(Latest(input, base, Hashed(input), h)))
    && (forall p: nat :: base <= p < Hashed(input) <= p + DICT_SIZE ==> LinkedAt(next, input, base, p))
  }

  /** The place p is linked to the one before it with the same hash. */
  ghost predicate LinkedAt(next: seq<u16>, input: seq<byte>, base: nat, p: nat)
    requires |next| == DICT_SIZE && p + 2 < |input|
  {
    next[p % DICT_SIZE] == Link(Latest(input, base, p, HashAt(input, p)))
  }

  /** More input changes nothing before. */
  lemma {:induction false} LatestMore(input: seq<byte>, more: seq<byte>, base: nat, p: nat, h: nat)
    requires p + 1 < |input| || p <= base
    ensures Latest(input + more, base, p, h) == Latest(input, base, p, h)
    decreases p
  {
    if p > base {
      assert HashAt(input + more, p - 1) == HashAt(input, p - 1);
      hide HashAt;
      LatestMore(input, more, base, p - 1, h);
    }
  }

  /** Before there are three bytes nothing is linked. */
  lemma LinkedFew(next: seq<u16>, hash: seq<u16>, input: seq<byte>, base: nat, c: byte)
    requires Linked(next, hash, input, base) && |input| < base + 2
    ensures Linked(next, hash, input + [c], base)
  {
    hide HashAt;
  }

  /** A place before is linked as before. */
  lemma LinkedStays(next: seq<u16>, input: seq<byte>, base: nat, c: byte, m: nat, v: u16, p: nat)
    requires |next| == DICT_SIZE && p < m < p + DICT_SIZE && m + 2 <= |input| && LinkedAt(next, input, base, p)
    ensures LinkedAt(next[m % DICT_SIZE := v], input + [c], base, p)
  {
    ModApart(p, m);
    assert HashAt(input + [c], p) == HashAt(input, p);
    LatestMore(input, [c], base, p, HashAt(input, p));
    hide HashAt;
  }

  /** The next place is entered into the chain of its hash. */
  lemma LinkedNext(next: seq<u16>, hash: seq<u16>, input: seq<byte>, base: nat, c: byte, m: nat, h: nat)
    requires Linked(next, hash, input, base) && base <= m == |input| - 2 && h == HashAt(input + [c], m)
    ensures Linked(next[m % DICT_SIZE := hash[h]], hash[h := m % 65536], input + [c], base)
  {
    hide HashAt;
    var more := input + [c];
    var links, lasts := next[m % DICT_SIZE := hash[h]], hash[h := m % 65536];
    forall g: nat | g < DICT_SIZE ensures lasts[g] == Link(Latest(more, base, m + 1, g)) {
      LatestMore(input, [c], base, m, g);
    }
    LatestMore(input, [c], base, m, h);
    assert LinkedAt(links, more, base, m);
    hide Latest;
    forall p: nat | base <= p < m + 1 <= p + DICT_SIZE ensures LinkedAt(links, more, base, p) {
      if p < m {
        LinkedStays(next, input, base, c, m, hash[h], p);
      }
    }
  }

  // ----- what the search sees of them -----

  /**
   The distances from pos of the last n places before q with the hash h; as far as maxDist, and up to a place whose low
   16 bits are 0, to which no link leads.
   */
  ghost function Earlier(input: seq<byte>, base: nat, q: nat, h: nat, pos: nat, maxDist: nat, n: nat): (c: seq<nat>)
    requires q <= pos && (q + 1 < |input| || q <= base)
    ensures |c| <= n
    decreases n
  {
    if n == 0 then [] else
    var r := Latest(input, base, q, h);
    if r < 0 || r % 65536 == 0 || pos - r > maxDist then []
    else [pos - r] + Earlier(input, base, r, h, pos, maxDist, n - 1)
  }

  lemma LinkDistance(pos: nat, r: nat)
    requires r < pos <= r + DICT_SIZE
    ensures (pos % WORD - r % 65536) % 65536 == pos - r && r % 65536 % DICT_SIZE == r % DICT_SIZE
  {
    var k, q := pos / WORD, r / 65536;
    assert pos == WORD * k + pos % WORD && r == 65536 * q + r % 65536;
    assert pos % WORD - r % 65536 == 65536 * (q - 65536 * k) + (pos - r);
    ModAdd(2 * q, r % 65536);
  }

  /** The first link of a place is followed to the one before it with the same hash. */
  lemma LinkFollowed(next: seq<u16>, hash: seq<u16>, input: seq<byte>, base: nat, pos: nat, q: nat, h: nat,
                     maxDist: nat, r: int)
    requires Linked(next, hash, input, base) && base <= q <= pos && q + 2 < |input| <= q + DICT_SIZE
    requires h == HashAt(input, q) && r == Latest(input, base, q, h) && maxDist < DICT_SIZE
    requires 0 <= r && r % 65536 != 0 && pos - r <= maxDist
    ensures Following(next, pos % WORD, maxDist, q % DICT_SIZE) == Some(pos - r)
    ensures next[q % DICT_SIZE] % DICT_SIZE == r % DICT_SIZE
  {
    hide HashAt, Latest;
    assert LinkedAt(next, input, base, q);
    LinkDistance(pos, r);
  }

  /** These places come first on the chain that the search follows. */
  lemma {:induction false} EarlierChained(next: seq<u16>, hash: seq<u16>, input: seq<byte>, base: nat, pos: nat, q: nat,
                                          h: nat, maxDist: nat, n: nat)
    requires Linked(next, hash, input, base) && base <= q <= pos && q + 2 < |input| <= pos - maxDist + DICT_SIZE
    requires h == HashAt(input, q) && maxDist < DICT_SIZE && pos - q <= maxDist <= pos
    ensures Earlier(input, base, q, h, pos, maxDist, n) <= Chain(next, pos % WORD, maxDist, q % DICT_SIZE, n)
    decreases n
  {
    hide HashAt, Linked, Latest;
    var r := Latest(input, base, q, h);
    if n > 0 && 0 <= r && r % 65536 != 0 && pos - r <= maxDist {
      LinkFollowed(next, hash, input, base, pos, q, h, maxDist, r);
      LinkedSize(next, hash, input, base);
      EarlierChained(next, hash, input, base, pos, r, h, maxDist, n - 1);
    }
  }

  lemma LinkedSize(next: seq<u16>, hash: seq<u16>, input: seq<byte>, base: nat)
    requires Linked(next, hash, input, base)
    ensures |next| == DICT_SIZE == |hash| && base <= |input|
  {
  }

  lemma {:induction false} EarlierFirst(input: seq<byte>, base: nat, q: nat, h: nat, pos: nat, maxDist: nat, m: nat,
                                        n: nat)
    requires q <= pos && (q + 1 < |input| || q <= base) && m <= n
    ensures Earlier(input, base, q, h, pos, maxDist, m) <= Earlier(input, base, q, h, pos, maxDist, n)
    decreases m
  {
    hide Latest;
    if m > 0 {
      var r := Latest(input, base, q, h);
      if 0 <= r && r % 65536 != 0 && pos - r <= maxDist {
        EarlierFirst(input, base, r, h, pos, maxDist, m - 1, n - 1);
      }
    }
  }

  /** The nearest places with the same hash, some of them, come first on the chain. */
  lemma NearChained(next: seq<u16>, hash: seq<u16>, input: seq<byte>, base: nat, pos: nat, maxDist: nat, m: nat, n: nat)
    requires Linked(next, hash, input, base) && base <= pos && pos + 2 < |input| <= pos - maxDist + DICT_SIZE
    requires maxDist < DICT_SIZE && maxDist <= pos && m <= n && |next| == DICT_SIZE
    ensures Earlier(input, base, pos, HashAt(input, pos), pos, maxDist, m)
         <= Chain(next, pos % WORD, maxDist, pos % DICT_SIZE, n)
  {
    hide HashAt, Linked, Chain, Earlier;
    var h := HashAt(input, pos);
    LinkedSize(next, hash, input, base);
    EarlierFirst(input, base, pos, h, pos, maxDist, m, n);
    EarlierChained(next, hash, input, base, pos, pos, h, maxDist, n);
  }

  /**
   What the search finds is as long as any match at the nearest places with the same hash, one for each probe but the
   last.
   */
  lemma NearestTried(next: seq<u16>, hash: seq<u16>, input: seq<byte>, base: nat, pos: nat, most: nat, maxDist: nat,
                     len0: nat, probes: nat, dist: nat, len: nat, visited: nat)
    requires Linked(next, hash, input, base) && base <= pos && pos + 2 < |input| == pos + most
    requires maxDist <= pos && maxDist + most <= DICT_SIZE && 1 <= probes
    requires |next| == DICT_SIZE && FoundIn(next, input, pos, most, maxDist, len0, probes, dist, len, visited)
    ensures NoLonger(input, pos, most, Earlier(input, base, pos, HashAt(input, pos), pos, maxDist, probes - 1), len)
  {
    hide HashAt, Linked, Chain, Earlier, NoLonger, Best;
    LinkedSize(next, hash, input, base);
    NearChained(next, hash, input, base, pos, maxDist, probes - 1, 3 * probes);
    var near := Earlier(input, base, pos, HashAt(input, pos), pos, maxDist, probes - 1);
    var chain := Chain(next, pos % WORD, maxDist, pos % DICT_SIZE, 3 * probes);
    BestLongest(input, pos, most, chain[..visited], len0, dist, len);
    if len < most {
      Among(near, chain, visited);
      FirstNoLonger(input, pos, most, chain[..visited], near, len);
    } else {
      AllNoLonger(input, pos, most, near, len);
    }
  }

  lemma BestLongest(input: seq<byte>, pos: nat, most: nat, dists: seq<nat>, len0: nat, dist: nat, len: nat)
    requires Best(input, pos, most, dists, len0, dist, len)
    ensures NoLonger(input, pos, most, dists, len)
  {
    hide NoLonger;
  }

  lemma Among(near: seq<nat>, chain: seq<nat>, visited: nat)
    requires near <= chain && |near| <= visited <= |chain|
    ensures near <= chain[..visited]
  {
  }

  lemma FirstNoLonger(input: seq<byte>, pos: nat, most: nat, dists: seq<nat>, first: seq<nat>, len: nat)
    requires NoLonger(input, pos, most, dists, len) && first <= dists
    ensures NoLonger(input, pos, most, first, len)
  {
    hide MatchOk;
  }

  lemma AllNoLonger(input: seq<byte>, pos: nat, most: nat, dists: seq<nat>, len: nat)
    requires most <= len
    ensures NoLonger(input, pos, most, dists, len)
  {
    hide MatchOk;
  }
}
