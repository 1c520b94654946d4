/** How the compressor parses: what it tries at each place, what it takes of it, and when a match waits for a better. */
module LazyParsing {
  import opened Bits
  import opened Deflate
  import opened BlockWriter
  import opened LzParsing
  import opened MatchSearch

  /** A match, or none if the distance is 0. */
  datatype Choice = Choice(dist: nat, len: nat)

  // ----- what is tried -----

  /** As many as n bytes of the lookahead, and no more, repeat the byte before it. */
  ghost predicate RunIs(input: seq<byte>, pos: nat, most: nat, n: nat) {
    && 1 <= pos && n <= most && pos + most <= |input|
    && (forall i :: pos <= i < pos + n ==> input[i] == input[pos - 1])
    && (n < most ==> input[pos + n] != input[pos - 1])
  }

  /** The number of probes: a quarter if a match of 32 bytes or more is there already. */
  ghost function Probes(flags: CompFlags, len0: nat): (n: nat)
    ensures 1 <= n
  {
    1 + ((if len0 >= 32 then flags.probes / 4 else flags.probes) + 2) / 3
  }

  /** What is tried, to be better than len0: a run of three bytes or more, or what the search finds; or nothing. */
  ghost predicate Tried(flags: CompFlags, next: seq<u16>, input: seq<byte>, pos: nat, most: nat, maxDist: nat,
                        len0: nat, s: Choice)
    requires |next| == DICT_SIZE
  {
    if flags.forceRaw || (flags.rle && maxDist == 0) then s == Choice(0, len0)
    else if flags.rle then exists n :: RunIs(input, pos, most, n) && s == if n < 3 then Choice(0, 0) else Choice(1, n)
    else exists v :: FoundIn(next, input, pos, most, maxDist, len0, Probes(flags, len0), s.dist, s.len, v)
  }

  /** What is taken of it: not three bytes from afar, no distance that is the place in the ring, no short match if these
      are filtered. */
  ghost function Taken(flags: CompFlags, pos: nat, s: Choice): Choice {
    if (s.len == 3 && s.dist >= 8192) || s.dist == pos % 32768 || (flags.filter && s.len <= 5) then Choice(0, 0) else s
  }

  // ----- what is recorded -----

  /** The tokens that are recorded, the match that waits (none if its length is 0) with the byte it starts at, and how
      far the lookahead moves. */
  datatype Outcome = Outcome(tokens: seq<Token>, len: nat, dist: nat, lit: byte, move: nat)

  /**
   A match waits one place, except that a long one, and any for the greedy parser, is taken at once. If the next place
   has a longer match, the one that waited becomes a literal.
   */
  ghost function Decided(flags: CompFlags, len: nat, dist: nat, saved: byte, c: Choice, lit: byte): Outcome {
    if len > 0 && c.len <= len then Outcome([Match(len, dist)], 0, dist, saved, len - 1)
    else
      var before := if len > 0 then [Literal(saved)] else [];
      if c.dist == 0 then Outcome([Literal(lit)], 0, dist, saved, 1)
      else if c.len >= 128 || (len == 0 && (flags.greedy || flags.rle))
      then Outcome(before + [Match(c.len, c.dist)], 0, dist, saved, c.len)
      else Outcome(before, c.len, c.dist, lit, 1)
  }

  // ----- it is sound -----

  /** A choice is no match, or a match of the lookahead. */
  ghost predicate ChoiceOk(input: seq<byte>, pos: nat, c: Choice) {
    c.dist > 0 ==> c.dist <= 32768 && 3 <= c.len <= 258 && MatchOk(input, pos, c.dist, c.len)
  }

  /** What is tried is a match, and better than what was there; or nothing. */
  lemma TriedOk(flags: CompFlags, next: seq<u16>, input: seq<byte>, pos: nat, most: nat, maxDist: nat, len0: nat,
                s: Choice)
    requires |next| == DICT_SIZE && 2 <= len0 && most <= 258 && maxDist <= 32768
    requires Tried(flags, next, input, pos, most, maxDist, len0, s)
    ensures ChoiceOk(input, pos, s) && (s.dist == 0 ==> s.len <= len0) && s.dist <= maxDist
  {
    hide FoundIn, MatchOk, Probes;
    if flags.forceRaw || (flags.rle && maxDist == 0) {
    } else if flags.rle {
      var n :| RunIs(input, pos, most, n) && s == if n < 3 then Choice(0, 0) else Choice(1, n);
      RunMatch(input, pos, most, n);
    } else {
      var v :| FoundIn(next, input, pos, most, maxDist, len0, Probes(flags, len0), s.dist, s.len, v);
      FoundMeans(next, input, pos, most, maxDist, len0, Probes(flags, len0), s.dist, s.len, v);
    }
  }

  /** A run is a match at distance 1. */
  lemma RunMatch(input: seq<byte>, pos: nat, most: nat, n: nat)
    requires RunIs(input, pos, most, n)
    ensures MatchOk(input, pos, 1, n) && n <= most
  {
  }

  lemma TakenOk(flags: CompFlags, input: seq<byte>, pos: nat, s: Choice, len0: nat)
    requires ChoiceOk(input, pos, s) && (s.dist == 0 ==> s.len <= len0)
    ensures ChoiceOk(input, pos, Taken(flags, pos, s))
    ensures Taken(flags, pos, s).dist <= s.dist
    ensures Taken(flags, pos, s).dist == 0 ==> Taken(flags, pos, s).len <= len0
  {
  }

  /** A match that does not reach back before `base` is one of the input from there on. */
  lemma ChoiceSince(input: seq<byte>, base: nat, pos: nat, c: Choice)
    requires ChoiceOk(input, pos, c) && base <= pos <= |input| && c.dist <= pos - base
    ensures ChoiceOk(input[base..], pos - base, c)
  {
  }

  lemma TriedNothing(flags: CompFlags, next: seq<u16>, input: seq<byte>, pos: nat, most: nat, maxDist: nat, len0: nat)
    requires |next| == DICT_SIZE && (flags.forceRaw || (flags.rle && maxDist == 0))
    ensures Tried(flags, next, input, pos, most, maxDist, len0, Choice(0, len0))
  {
  }

  lemma TriedRun(flags: CompFlags, next: seq<u16>, input: seq<byte>, pos: nat, most: nat, maxDist: nat, len0: nat,
                 n: nat)
    requires |next| == DICT_SIZE && !flags.forceRaw && flags.rle && maxDist > 0 && RunIs(input, pos, most, n)
    ensures Tried(flags, next, input, pos, most, maxDist, len0, if n < 3 then Choice(0, 0) else Choice(1, n))
  {
    hide RunIs;
  }

  lemma TriedSearch(flags: CompFlags, next: seq<u16>, input: seq<byte>, pos: nat, most: nat, maxDist: nat, len0: nat,
                    dist: nat, len: nat, v: nat)
    requires |next| == DICT_SIZE && !flags.forceRaw && !flags.rle
    requires FoundIn(next, input, pos, most, maxDist, len0, Probes(flags, len0), dist, len, v)
    ensures Tried(flags, next, input, pos, most, maxDist, len0, Choice(dist, len))
  {
    hide FoundIn, Probes;
  }

  /** How far the lookahead repeats the byte before it. */
  method RunLength(dict: array<byte>, at: nat, c: byte, most: nat, ghost input: seq<byte>, ghost pos: nat,
                   ghost lookaheadPos: nat, ghost dictSize: nat)
    returns (n: nat)
    requires Lookahead(dict[..], input, pos, lookaheadPos, most, dictSize) && 1 <= pos && c == input[pos - 1]
    requires at == pos % DICT_SIZE
    ensures RunIs(input, pos, most, n)
  {
    n := 0;
    LookaheadFacts(dict[..], input, pos, lookaheadPos, most, dictSize);
    hide Window;
    while n < most
      invariant n <= most && forall i :: pos <= i < pos + n ==> input[i] == c
    {
      LookaheadByte(dict[..], input, pos, lookaheadPos, most, dictSize, 0, n);
      if dict[at + n] != c {
        break;
      }
      n := n + 1;
    }
  }

  lemma ByteBefore(dict: seq<byte>, input: seq<byte>, pos: nat, lookaheadPos: nat, lookaheadSize: nat, dictSize: nat)
    requires Lookahead(dict, input, pos, lookaheadPos, lookaheadSize, dictSize) && 1 <= dictSize && 1 <= lookaheadSize
    ensures 1 <= pos <= |input| && (pos % DICT_SIZE - 1) % DICT_SIZE < |dict|
    ensures dict[(pos % DICT_SIZE - 1) % DICT_SIZE] == input[pos - 1]
  {
    LookaheadByte(dict, input, pos, lookaheadPos, lookaheadSize, dictSize, 1, 0);
    var q, r := pos / DICT_SIZE, pos % DICT_SIZE;
    assert pos - 1 == DICT_SIZE * q + (r - 1);
    ModAdd(q, r - 1);
  }
}
