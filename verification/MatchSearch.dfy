/** The search for matches: the ring with the lookahead, and the hash chains through it. */
module MatchSearch {
  import opened Bits
  import opened Deflate
  import opened LzParsing

  type u16 = n: nat | n < 65536

  const WORD := 0x1_0000_0000

  // ----- the lookahead -----

  /** The ring holds the input, of which the first pos bytes are behind the lookahead. */
  ghost predicate Lookahead(dict: seq<byte>, input: seq<byte>, pos: nat, lookaheadPos: nat, lookaheadSize: nat,
                            dictSize: nat)
  {
    && Window(dict, input) && |input| == pos + lookaheadSize && lookaheadPos == pos % WORD
    && lookaheadSize <= 258 && dictSize <= pos && dictSize + lookaheadSize <= DICT_SIZE
  }

  /** A byte of the lookahead, or of a place at most dictSize before it. */
  lemma LookaheadByte(dict: seq<byte>, input: seq<byte>, pos: nat, lookaheadPos: nat, lookaheadSize: nat,
                      dictSize: nat, dist: nat, k: nat)
    requires Lookahead(dict, input, pos, lookaheadPos, lookaheadSize, dictSize) && dist <= dictSize && k < lookaheadSize
    ensures (pos - dist) % DICT_SIZE + k < |dict| && dict[(pos - dist) % DICT_SIZE + k] == input[pos - dist + k]
  {
    WindowRead(dict, input, pos - dist, k);
  }

  lemma WordMod(p: nat)
    ensures p % WORD % DICT_SIZE == p % DICT_SIZE
  {
    var q, r := p / WORD, p % WORD;
    assert p == WORD * q + r;
    ModAdd(131072 * q, r);
  }

  lemma ModAdd(m: int, n: int)
    ensures (DICT_SIZE * m + n) % DICT_SIZE == n % DICT_SIZE
  {
    var d, r := n / DICT_SIZE, n % DICT_SIZE;
    assert n == DICT_SIZE * d + r;
    assert DICT_SIZE * m + n == DICT_SIZE * (m + d) + r;
  }

  /** A chain entry at 16-bit distance dist is the place dist before the lookahead. */
  lemma ProbePlace(pos: nat, entry: u16, dist: nat)
    requires dist == (pos % WORD - entry) % 65536 && dist <= pos
    ensures entry % DICT_SIZE == (pos - dist) % DICT_SIZE
  {
    var q, l := pos / WORD, pos % WORD;
    var k := (l - entry) / 65536;
    assert pos == WORD * q + l && l - entry == 65536 * k + dist;
    assert pos - dist == DICT_SIZE * (131072 * q + 2 * k) + entry;
    ModAdd(131072 * q + 2 * k, entry);
  }

  lemma LookaheadFacts(dict: seq<byte>, input: seq<byte>, pos: nat, lookaheadPos: nat, lookaheadSize: nat,
                       dictSize: nat)
    requires Lookahead(dict, input, pos, lookaheadPos, lookaheadSize, dictSize)
    ensures |input| == pos + lookaheadSize && lookaheadPos == pos % WORD && lookaheadSize <= 258
    ensures dictSize <= pos && dictSize + lookaheadSize <= DICT_SIZE
  {
  }

  // ----- the chains -----

  /** The distance of the place that the chain names after `place`: none at its end. */
  ghost function Following(next: seq<u16>, lookaheadPos: nat, maxDist: nat, place: nat): Option<nat>
    requires |next| == DICT_SIZE && place < DICT_SIZE
  {
    var dist := (lookaheadPos - next[place]) % 65536;
    if next[place] == 0 || dist == 0 || dist > maxDist then None else Some(dist)
  }

  /** The distances of the places on the chain after `place`, up to n of them. */
  ghost function Chain(next: seq<u16>, lookaheadPos: nat, maxDist: nat, place: nat, n: nat): (c: seq<nat>)
    requires |next| == DICT_SIZE && place < DICT_SIZE
    ensures |c| <= n && forall i :: 0 <= i < |c| ==> 1 <= c[i] <= maxDist
    decreases n
  {
    if n == 0 then [] else
    match Following(next, lookaheadPos, maxDist, place)
    case None => []
    case Some(dist) => [dist] + Chain(next, lookaheadPos, maxDist, next[place] % DICT_SIZE, n - 1)
  }

  /** At none of these distances do more than len bytes equal the lookahead. */
  ghost predicate NoLonger(input: seq<byte>, pos: nat, most: nat, dists: seq<nat>, len: int) {
    forall i, k: nat :: 0 <= i < |dists| && k <= most && MatchOk(input, pos, dists[i], k) ==> k <= len
  }

  /** One of the distances is dist, and with none before it the match is as long. */
  ghost predicate FirstOf(input: seq<byte>, pos: nat, most: nat, dists: seq<nat>, dist: nat, len: nat) {
    exists i :: 0 <= i < |dists| && dists[i] == dist && NoLonger(input, pos, most, dists[..i], len - 1)
  }

  /** Of these distances the first with the longest match, if that is longer than len0. */
  ghost predicate Best(input: seq<byte>, pos: nat, most: nat, dists: seq<nat>, len0: nat, dist: nat, len: nat) {
    && NoLonger(input, pos, most, dists, len)
    && (dist == 0 ==> len == len0)
    && (dist > 0 ==>
          len0 < len <= most && MatchOk(input, pos, dist, len) && FirstOf(input, pos, most, dists, dist, len))
  }

  lemma ChainNext(next: seq<u16>, lookaheadPos: nat, maxDist: nat, place: nat, n: nat)
    requires |next| == DICT_SIZE && place < DICT_SIZE && n > 0
    ensures
      var c, f := Chain(next, lookaheadPos, maxDist, place, n), Following(next, lookaheadPos, maxDist, place);
      if f.None? then c == []
      else c != [] && c[0] == f.value && c[1..] == Chain(next, lookaheadPos, maxDist, next[place] % DICT_SIZE, n - 1)
  {
    hide Following;
  }

  /** How many bytes at the ring's place `probe` equal the lookahead. */
  method MatchLength(dict: array<byte>, at: nat, probe: nat, most: nat, ghost input: seq<byte>, ghost pos: nat,
                     ghost lookaheadPos: nat, ghost dictSize: nat, ghost dist: nat)
    returns (n: nat)
    requires Lookahead(dict[..], input, pos, lookaheadPos, most, dictSize) && 1 <= dist <= dictSize
    requires at == pos % DICT_SIZE && probe == (pos - dist) % DICT_SIZE
    ensures n <= most && MatchOk(input, pos, dist, n) && NoLonger(input, pos, most, [dist], n)
  {
    n := 0;
    assert dict[..] == dict[..];
    hide Window;
    while n < most
      invariant n <= most && MatchOk(input, pos, dist, n)
    {
      LookaheadByte(dict[..], input, pos, lookaheadPos, most, dictSize, 0, n);
      LookaheadByte(dict[..], input, pos, lookaheadPos, most, dictSize, dist, n);
      if dict[at + n] != dict[probe + n] {
        Differs(input, pos, most, dist, n);
        break;
      }
      n := n + 1;
    }
  }

  lemma MatchByte(input: seq<byte>, pos: nat, dist: nat, len: nat, k: nat)
    requires MatchOk(input, pos, dist, len) && k < len
    ensures 1 <= dist <= pos && pos + k < |input| && input[pos + k] == input[pos - dist + k]
  {
  }

  lemma Differs(input: seq<byte>, pos: nat, most: nat, dist: nat, n: nat)
    requires 1 <= dist <= pos && pos + n < |input| && input[pos + n] != input[pos - dist + n]
    ensures NoLonger(input, pos, most, [dist], n)
  {
    forall k: nat | k <= most && MatchOk(input, pos, dist, k) ensures k <= n {
      if n < k {
        MatchByte(input, pos, dist, k, n);
        assert false;
      }
    }
  }

  lemma NoLongerMore(input: seq<byte>, pos: nat, most: nat, a: seq<nat>, b: seq<nat>, len: int, longer: int)
    requires NoLonger(input, pos, most, a, len) && NoLonger(input, pos, most, b, longer) && len <= longer
    ensures NoLonger(input, pos, most, a + b, longer)
  {
  }


  /** One of the two bytes at a place differs: no longer match is there. */
  lemma Skipped(dict: seq<byte>, input: seq<byte>, pos: nat, lookaheadPos: nat, most: nat, maxDist: nat, dist: nat,
                len: nat)
    requires Lookahead(dict, input, pos, lookaheadPos, most, maxDist) && 1 <= dist <= maxDist && 1 <= len < most
    ensures (pos - dist) % DICT_SIZE + len < |dict| && pos + len < |input|
    ensures var p := (pos - dist) % DICT_SIZE;
      dict[p + len] != input[pos + len] || dict[p + len - 1] != input[pos + len - 1] ==>
        NoLonger(input, pos, most, [dist], len)
  {
    LookaheadByte(dict, input, pos, lookaheadPos, most, maxDist, dist, len);
    LookaheadByte(dict, input, pos, lookaheadPos, most, maxDist, dist, len - 1);
    LookaheadFacts(dict, input, pos, lookaheadPos, most, maxDist);
    hide Lookahead, NoLonger;
    if input[pos - dist + len] != input[pos + len] {
      Differs(input, pos, most, dist, len);
    } else if input[pos - dist + len - 1] != input[pos + len - 1] {
      Differs(input, pos, most, dist, len - 1);
      Weaker(input, pos, most, [dist], len - 1, len);
    }
  }

  lemma Weaker(input: seq<byte>, pos: nat, most: nat, dists: seq<nat>, len: int, longer: int)
    requires NoLonger(input, pos, most, dists, len) && len <= longer
    ensures NoLonger(input, pos, most, dists, longer)
  {
  }

  /** The lookahead's own place. */
  lemma OwnPlace(dict: seq<byte>, input: seq<byte>, pos: nat, lookaheadPos: nat, most: nat, maxDist: nat, k: nat)
    requires Lookahead(dict, input, pos, lookaheadPos, most, maxDist) && k < most
    ensures pos % DICT_SIZE + k < |dict| && pos + k < |input| && dict[pos % DICT_SIZE + k] == input[pos + k]
  {
    LookaheadByte(dict, input, pos, lookaheadPos, most, maxDist, 0, k);
    LookaheadFacts(dict, input, pos, lookaheadPos, most, maxDist);
    hide Lookahead;
  }

  /** What is left of a chain of at most n places, of which m have been passed, starts after `place`. */
  ghost predicate Rest(next: seq<u16>, lookaheadPos: nat, maxDist: nat, place: nat, n: nat, chain: seq<nat>, m: nat) {
    && |next| == DICT_SIZE && place < DICT_SIZE && m <= n && m <= |chain|
    && chain[m..] == Chain(next, lookaheadPos, maxDist, place, n - m)
  }

  lemma RestNext(next: seq<u16>, lookaheadPos: nat, maxDist: nat, place: nat, n: nat, chain: seq<nat>, m: nat)
    requires Rest(next, lookaheadPos, maxDist, place, n, chain, m) && m < n
    ensures |next| == DICT_SIZE && place < DICT_SIZE
    ensures var dist := (lookaheadPos - next[place]) % 65536;
      if next[place] == 0 || dist == 0 || dist > maxDist then m == |chain|
      else m < |chain| && chain[m] == dist
           && Rest(next, lookaheadPos, maxDist, next[place] % DICT_SIZE, n, chain, m + 1)
  {
    ChainNext(next, lookaheadPos, maxDist, place, n - m);
    hide Chain;
    if m < |chain| {
      assert chain[m..][1..] == chain[m + 1..];
    }
  }

  lemma RestStarts(next: seq<u16>, lookaheadPos: nat, maxDist: nat, place: nat, n: nat, chain: seq<nat>)
    requires |next| == DICT_SIZE && place < DICT_SIZE && chain == Chain(next, lookaheadPos, maxDist, place, n)
    ensures Rest(next, lookaheadPos, maxDist, place, n, chain, 0)
  {
    assert chain[0..] == chain;
  }

  lemma OneMore(input: seq<byte>, pos: nat, most: nat, chain: seq<nat>, a: nat, m: nat, len: int, longer: int)
    requires a <= m < |chain| && NoLonger(input, pos, most, chain[a..m], len) && len <= longer
    requires NoLonger(input, pos, most, [chain[m]], longer)
    ensures NoLonger(input, pos, most, chain[a..m + 1], longer)
  {
    assert chain[a..m + 1] == chain[a..m] + [chain[m]];
    NoLongerMore(input, pos, most, chain[a..m], [chain[m]], len, longer);
    hide NoLonger;
  }

  /** Takes a chain one place further, and sees whether the bytes len - 1 and len match there. */
  method Probe(dict: array<byte>, next: array<u16>, probe: nat, len: nat, c0: byte, c1: byte, lookaheadPos: nat,
               maxDist: nat, ghost input: seq<byte>, ghost pos: nat, ghost most: nat, ghost n: nat,
               ghost chain: seq<nat>, ghost m: nat)
    returns (ended: bool, hit: bool, probe': nat, dist: nat)
    requires Lookahead(dict[..], input, pos, lookaheadPos, most, maxDist) && 1 <= len < most
    requires Rest(next[..], lookaheadPos, maxDist, probe, n, chain, m) && m < n
    requires pos + len < |input| && c0 == input[pos + len] && c1 == input[pos + len - 1]
    ensures (ended ==> !hit) && (!ended && dist == 0 ==> hit)
    ensures ended || dist == 0 ==> m == |chain|
    ensures !ended && dist > 0 ==>
      && m < |chain| && dist == chain[m] <= maxDist && probe' == (pos - dist) % DICT_SIZE
      && Rest(next[..], lookaheadPos, maxDist, probe', n, chain, m + 1)
      && (!hit ==> NoLonger(input, pos, most, [dist], len))
  {
    hide Lookahead, MatchOk, NoLonger, Rest;
    ended, hit, probe', dist := true, false, probe, 0;
    LookaheadFacts(dict[..], input, pos, lookaheadPos, most, maxDist);
    RestNext(next[..], lookaheadPos, maxDist, probe, n, chain, m);
    var entry := next[probe];
    if entry == 0 {
      return;
    }
    dist := (lookaheadPos - entry) % 65536;
    if dist > maxDist {
      return;
    }
    ended := false;
    ProbePlace(pos, entry, dist);
    probe' := entry % DICT_SIZE;
    if dist == 0 {
      OwnPlace(dict[..], input, pos, lookaheadPos, most, maxDist, len);
      OwnPlace(dict[..], input, pos, lookaheadPos, most, maxDist, len - 1);
    } else {
      Skipped(dict[..], input, pos, lookaheadPos, most, maxDist, dist, len);
    }
    hit := dict[probe' + len] == c0 && dict[probe' + len - 1] == c1;
  }

  /**
   Follows a hash chain from its m-th place to the next one whose bytes len - 1 and len match, if the probes suffice:
   of each probe three places are looked at. The chain ends at an empty entry, or one that is too far or at no distance.
   */
  method NextCandidate(dict: array<byte>, next: array<u16>, probe: nat, probes: nat, len: nat, c0: byte, c1: byte,
                       lookaheadPos: nat, maxDist: nat, ghost input: seq<byte>, ghost pos: nat, ghost most: nat,
                       ghost n: nat, ghost chain: seq<nat>, ghost m: nat)
    returns (found: bool, probe': nat, dist: nat, probes': nat, ghost m': nat)
    requires Lookahead(dict[..], input, pos, lookaheadPos, most, maxDist) && 1 <= len < most && 1 <= probes
    requires Rest(next[..], lookaheadPos, maxDist, probe, n, chain, m) && m + 3 * probes <= n
    requires pos + len < |input| && c0 == input[pos + len] && c1 == input[pos + len - 1]
    ensures m <= m' <= |chain| && NoLonger(input, pos, most, chain[m..m'], len)
    ensures found && dist > 0 ==> dist <= maxDist && probe' == (pos - dist) % DICT_SIZE && 1 <= probes' < probes
    ensures found && dist > 0 ==>
      && m' < |chain| && dist == chain[m']
      && Rest(next[..], lookaheadPos, maxDist, probe', n, chain, m' + 1)
      && probes - probes' <= m' + 1 - m <= 3 * (probes - probes')
    ensures !found || dist == 0 ==> m' == |chain| || m' == m + 3 * (probes - 1)
    ensures !found || dist == 0 ==> m' - m <= 3 * (probes - 1)
  {
    found, probe', dist, probes', m' := false, probe, 0, probes, m;
    hide Lookahead, MatchOk, NoLonger, Rest;
    RestIs(next[..], lookaheadPos, maxDist, probe, n, chain, m);
    LookaheadFacts(dict[..], input, pos, lookaheadPos, most, maxDist);
    Nothing(input, pos, most, chain, m, len);
    while true
      invariant 1 <= probes' <= probes && probe' < DICT_SIZE && !found
      invariant m' == m + 3 * (probes - probes') <= |chain|
      invariant Rest(next[..], lookaheadPos, maxDist, probe', n, chain, m')
      invariant NoLonger(input, pos, most, chain[m..m'], len)
      decreases probes'
    {
      probes' := probes' - 1;
      if probes' == 0 {
        return;
      }
      for i := 0 to 3
        invariant probe' < DICT_SIZE && !found && m' == m + 3 * (probes - probes' - 1) + i <= |chain|
        invariant Rest(next[..], lookaheadPos, maxDist, probe', n, chain, m')
        invariant NoLonger(input, pos, most, chain[m..m'], len)
      {
        var ended;
        ended, found, probe', dist := Probe(dict, next, probe', len, c0, c1, lookaheadPos, maxDist,
          input, pos, most, n, chain, m');
        if ended || found {
          return;
        }
        OneMore(input, pos, most, chain, m, m', len, len);
        m' := m' + 1;
      }
    }
  }

  lemma RestIs(next: seq<u16>, lookaheadPos: nat, maxDist: nat, place: nat, n: nat, chain: seq<nat>, m: nat)
    requires Rest(next, lookaheadPos, maxDist, place, n, chain, m)
    ensures |next| == DICT_SIZE && place < DICT_SIZE && m <= n && m <= |chain|
  {
  }

  lemma Nothing(input: seq<byte>, pos: nat, most: nat, chain: seq<nat>, m: nat, len: int)
    requires m <= |chain|
    ensures NoLonger(input, pos, most, chain[m..m], len)
  {
  }

  /** Nothing more was found. */
  lemma BestStays(input: seq<byte>, pos: nat, most: nat, chain: seq<nat>, v: nat, m: nat, len0: nat, dist: nat,
                  len: nat)
    requires v <= m <= |chain| && Best(input, pos, most, chain[..v], len0, dist, len)
    requires NoLonger(input, pos, most, chain[v..m], len)
    ensures Best(input, pos, most, chain[..m], len0, dist, len)
  {
    assert chain[..m] == chain[..v] + chain[v..m];
    NoLongerMore(input, pos, most, chain[..v], chain[v..m], len, len);
    hide NoLonger, MatchOk;
    if dist > 0 {
      var i :| 0 <= i < v && chain[..v][i] == dist && NoLonger(input, pos, most, chain[..v][..i], len - 1);
      assert chain[..m][..i] == chain[..v][..i] && chain[..m][i] == dist;
    }
  }

  /** A longer match was found. */
  lemma BestAgain(input: seq<byte>, pos: nat, most: nat, chain: seq<nat>, m: nat, len0: nat, dist0: nat, shorter: nat,
                  dist: nat, len: nat)
    requires m < |chain| && Best(input, pos, most, chain[..m], len0, dist0, shorter) && len0 <= shorter < len <= most
    requires chain[m] == dist > 0 && MatchOk(input, pos, dist, len) && NoLonger(input, pos, most, [dist], len)
    ensures Best(input, pos, most, chain[..m + 1], len0, dist, len)
  {
    Weaker(input, pos, most, chain[..m], shorter, len - 1);
    assert chain[..m + 1] == chain[..m] + [dist];
    NoLongerMore(input, pos, most, chain[..m], [dist], len - 1, len);
    hide NoLonger, MatchOk;
    assert chain[..m + 1][m] == dist && chain[..m + 1][..m] == chain[..m];
  }

  lemma BestStarts(input: seq<byte>, pos: nat, most: nat, chain: seq<nat>, len0: nat)
    ensures Best(input, pos, most, chain[..0], len0, 0, len0)
  {
  }

  /**
   The search looked at that many places, and gives of these the first with the longest match longer than len0. They
   are all places of the chain, or at least one for each probe but the last, if not the whole lookahead matches before.
   */
  ghost predicate FoundIn(next: seq<u16>, input: seq<byte>, pos: nat, most: nat, maxDist: nat, len0: nat, probes: nat,
                          dist: nat, len: nat, visited: nat)
    requires |next| == DICT_SIZE && 1 <= probes
  {
    var chain := Chain(next, pos % WORD, maxDist, pos % DICT_SIZE, 3 * probes);
    && visited <= |chain| && visited <= 3 * (probes - 1)
    && Best(input, pos, most, chain[..visited], len0, dist, len)
    && (visited == |chain| || visited >= probes - 1 || len >= most)
  }

  /** Compares the m-th place of the chain with the lookahead. */
  method Improve(dict: array<byte>, at: nat, probe: nat, most: nat, d: nat, dist: nat, len: nat, c0: byte, c1: byte,
                 ghost input: seq<byte>, ghost pos: nat, ghost lookaheadPos: nat, ghost maxDist: nat,
                 ghost chain: seq<nat>, ghost m: nat, ghost len0: nat)
    returns (dist': nat, len': nat, c0': byte, c1': byte)
    requires Lookahead(dict[..], input, pos, lookaheadPos, most, maxDist) && 1 <= d <= maxDist && len0 <= len < most
    requires at == pos % DICT_SIZE && probe == (pos - d) % DICT_SIZE && m < |chain| && chain[m] == d && 1 <= len
    requires Best(input, pos, most, chain[..m], len0, dist, len)
    requires pos + len < |input| && c0 == input[pos + len] && c1 == input[pos + len - 1]
    ensures len <= len' <= most && Best(input, pos, most, chain[..m + 1], len0, dist', len')
    ensures if len' > len then dist' == d && MatchOk(input, pos, dist', len') else dist' == dist
    ensures len' < most ==> pos + len' < |input| && c0' == input[pos + len'] && c1' == input[pos + len' - 1]
  {
    hide Lookahead, MatchOk, Best, NoLonger, FirstOf;
    dist', len', c0', c1' := dist, len, c0, c1;
    var n := MatchLength(dict, at, probe, most, input, pos, lookaheadPos, maxDist, d);
    if n > len {
      BestAgain(input, pos, most, chain, m, len0, dist, len, d, n);
      dist', len' := d, n;
      if len' == most {
        return;
      }
      OwnPlace(dict[..], input, pos, lookaheadPos, most, maxDist, len');
      OwnPlace(dict[..], input, pos, lookaheadPos, most, maxDist, len' - 1);
      c0', c1' := dict[at + len'], dict[at + len' - 1];
    } else {
      Weaker(input, pos, most, [d], n, len);
      assert chain[m..m + 1] == [d];
      BestStays(input, pos, most, chain, m, m + 1, len0, dist, len);
    }
  }

  /** Looks for a match longer than len0 along the hash chain, whatever the chain holds. */
  method FindMatch(dict: array<byte>, next: array<u16>, lookaheadPos: nat, maxDist: nat, most: nat, len0: nat,
                   probes: nat, ghost input: seq<byte>, ghost pos: nat)
    returns (dist: nat, len: nat, ghost visited: nat)
    requires next.Length == DICT_SIZE && 1 <= probes && 2 <= len0 <= 257 && dict.Length == DICT_LEN
    requires Lookahead(dict[..], input, pos, lookaheadPos, most, maxDist)
    ensures FoundIn(next[..], input, pos, most, maxDist, len0, probes, dist, len, visited)
    ensures dist == 0 ==> len == len0
    ensures dist > 0 ==> len0 < len <= most && dist <= maxDist && MatchOk(input, pos, dist, len)
  {
    WordMod(pos);
    var at := lookaheadPos % DICT_SIZE;
    dist, len, visited := 0, len0, 0;
    LookaheadFacts(dict[..], input, pos, lookaheadPos, most, maxDist);
    hide Lookahead, MatchOk, Chain, Rest, Best, NoLonger, FirstOf;
    ghost var chain := Chain(next[..], lookaheadPos, maxDist, pos % DICT_SIZE, 3 * probes);
    RestStarts(next[..], lookaheadPos, maxDist, pos % DICT_SIZE, 3 * probes, chain);
    BestStarts(input, pos, most, chain, len0);
    var c0, c1 := dict[at + len], dict[at + len - 1];
    if most <= len {
      return;
    }
    OwnPlace(dict[..], input, pos, lookaheadPos, most, maxDist, len);
    OwnPlace(dict[..], input, pos, lookaheadPos, most, maxDist, len - 1);
    var probe: nat, left: nat := at, probes;
    while true
      invariant 2 <= len < most && 1 <= left && visited <= |chain|
      invariant Rest(next[..], lookaheadPos, maxDist, probe, 3 * probes, chain, visited)
      invariant probes - left <= visited <= 3 * (probes - left)
      invariant c0 == input[pos + len] && c1 == input[pos + len - 1] && pos + most == |input|
      invariant len0 <= len && Best(input, pos, most, chain[..visited], len0, dist, len)
      invariant if dist == 0 then len == len0 else len0 < len && dist <= maxDist && MatchOk(input, pos, dist, len)
      decreases left
    {
      var found, d;
      ghost var m;
      found, probe, d, left, m := NextCandidate(dict, next, probe, left, len, c0, c1, lookaheadPos, maxDist,
        input, pos, most, 3 * probes, chain, visited);
      BestStays(input, pos, most, chain, visited, m, len0, dist, len);
      if !found || d == 0 {
        visited := m;
        return;
      }
      dist, len, c0, c1 := Improve(dict, at, probe, most, d, dist, len, c0, c1, input, pos, lookaheadPos, maxDist,
        chain, m, len0);
      visited := m + 1;
      if len == most {
        return;
      }
    }
  }

  /** What the search may give: nothing better than before, or a longer match. */
  lemma FoundMeans(next: seq<u16>, input: seq<byte>, pos: nat, most: nat, maxDist: nat, len0: nat, probes: nat,
                   dist: nat, len: nat, visited: nat)
    requires |next| == DICT_SIZE && 1 <= probes
    requires FoundIn(next, input, pos, most, maxDist, len0, probes, dist, len, visited)
    ensures dist == 0 ==> len == len0
    ensures dist > 0 ==> len0 < len <= most && dist <= maxDist && MatchOk(input, pos, dist, len)
  {
    hide NoLonger, MatchOk;
  }
}
