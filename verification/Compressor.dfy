/** The compressor: a ring of the last 32 KB of input, hash chains into it, and lazy or greedy matching. */
module Compressor {
  import opened Bits
  import opened Deflate
  import opened BitWriter
  import opened TokenBuffer
  import opened BlockDecoding
  import opened BlockWriter
  import opened LzParsing
  import opened MatchSearch
  import opened HashChains
  import opened LazyParsing
  import Adler32

  // ----- parsing -----

  /** A match that waits for the next position to be tried, and the literal that would replace its start. */
  ghost predicate Waiting(input: seq<byte>, pos: nat, len: nat, dist: nat, lit: byte) {
    len > 0 ==> (3 <= len < 128 && 1 <= pos <= |input| && lit == input[pos - 1] && dist <= 32768
        && MatchOk(input, pos - 1, dist, len))
  }

  /** How much of the input the tokens stand for. */
  function Parsed(pos: nat, savedLen: nat): nat {
    if savedLen > 0 && pos > 0 then pos - 1 else pos
  }

  lemma SavedFits(input: seq<byte>, pos: nat, len: nat, dist: nat, lit: byte)
    requires Waiting(input, pos, len, dist, lit) && len > 0
    ensures 3 <= len < 128 && 1 <= pos <= |input| && lit == input[pos - 1] && 1 <= dist <= 32768
    ensures pos - 1 + len <= |input|
    ensures MatchOk(input, pos - 1, dist, len)
  {
  }

  lemma NothingYet(dict: seq<byte>, next: seq<u16>, hash: seq<u16>)
    requires |dict| == DICT_LEN && |next| == |hash| == DICT_SIZE && forall h :: 0 <= h < DICT_SIZE ==> hash[h] == 0
    ensures Lookahead(dict, [], 0, 0, 0, 0) && Stands([], [], [], 0) && Linked(next, hash, [], 0)
  {
    StandsStart([], []);
  }

  lemma NoChecksum(flags: CompFlags)
    ensures Checksum(flags, []) == 1
  {
  }

  lemma NothingDelivered()
    ensures Delivered([], [], 0)
  {
  }

  /** Recording a literal or a match of the input. */
  lemma RecordedLiteral(plain: seq<byte>, ts: seq<Token>, input: seq<byte>, n: nat, lit: byte)
    requires Stands(plain, ts, input, n) && n < |input| && lit == input[n]
    ensures Stands(plain, ts + [Literal(lit)], input, n + 1)
  {
    StandsLiteral(plain, ts, input, n);
  }

  lemma ChoiceMatch(input: seq<byte>, pos: nat, c: Choice)
    requires ChoiceOk(input, pos, c) && c.dist > 0
    ensures 3 <= c.len <= 258 && 1 <= c.dist <= 32768 && MatchOk(input, pos, c.dist, c.len) && pos + c.len <= |input|
  {
  }

  lemma SavedStarts(input: seq<byte>, pos: nat, c: Choice, lit: byte)
    requires ChoiceOk(input, pos, c) && c.dist > 0 && c.len < 128 && pos < |input| && lit == input[pos]
    ensures Waiting(input, pos + 1, c.len, c.dist, lit)
  {
  }

  lemma NothingSaved(input: seq<byte>, pos: nat, dist: nat, lit: byte)
    ensures Waiting(input, pos, 0, dist, lit)
  {
  }

  datatype Status = BadParam | PutBufFailed | Okay | Done

  /** What the checksum covers when it is kept. */
  function Checksum(flags: CompFlags, input: seq<byte>): nat {
    if flags.zlib || flags.adler then Adler32.Adler(1, input) else 1
  }

  lemma ChecksumMore(flags: CompFlags, input: seq<byte>, more: seq<byte>)
    ensures Checksum(flags, input) < 0x1_0000_0000
    ensures flags.zlib || flags.adler ==> Adler32.Adler(Checksum(flags, input), more) == Checksum(flags, input + more)
    ensures !(flags.zlib || flags.adler) ==> Checksum(flags, input) == Checksum(flags, input + more)
  {
    Adler32.AdlerReduced(1, input);
    Adler32.AdlerAppend(1, input, more);
  }

  /** The header of a stream with these flags. */
  function StreamHeader(flags: CompFlags): seq<bool> {
    if flags.zlib then ZlibHeader(flags.probes) else []
  }

  /**
   The delivered bytes are a complete stream for the input: after the header, blocks that decode to the input, then
   zeros up to a byte boundary and, in a zlib stream, the input's checksum.
   */
  ghost predicate StreamFor(flags: CompFlags, input: seq<byte>, received: seq<byte>) {
    Checksum(flags, input) < 0x1_0000_0000 &&
    exists e :: Ends(StreamHeader(flags), e, [], input)
             && ByteBits(received) == e + Trailer(|e|, flags.zlib, Checksum(flags, input))
  }

  /** What has been delivered decodes to the input so far, in every stream that goes on from there. */
  ghost predicate StreamSoFar(flags: CompFlags, input: seq<byte>, received: seq<byte>) {
    Continues(StreamHeader(flags), ByteBits(received), [], input)
  }

  /** What was delivered after the start, alone, decodes to that. */
  ghost predicate SinceSoFar(start: seq<bool>, since: seq<byte>, received: seq<byte>) {
    Continues(start, ByteBits(received), [], since)
  }

  /** And it does in a complete stream, up to the stream's end. */
  ghost predicate SinceFor(flags: CompFlags, input: seq<byte>, start: seq<bool>, since: seq<byte>,
                           received: seq<byte>) {
    Checksum(flags, input) < 0x1_0000_0000 &&
    exists e :: Ends(start, e, [], since) && ByteBits(received) == e + Trailer(|e|, flags.zlib, Checksum(flags, input))
  }

  class Compressor {
    const b: BlockWriter
    const dict: array<byte>
    const next: array<u16>
    const hash: array<u16>
    const probes0: nat
    const probes1: nat
    var lookaheadPos: nat
    var lookaheadSize: nat
    var dictSize: nat
    var dictPos: nat
    var savedLit: byte
    var savedLen: nat
    var savedDist: nat
    var adler: nat
    var finished: bool
    var wantsToFinish: bool
    var status: Status
    ghost var input: seq<byte>
    ghost var pos: nat

    /** Starts a stream whose bytes go to sink. The ring and the chains may hold anything. */
    constructor (flags: CompFlags, sink: Sink)
      requires sink.received == []
      ensures Shape() && Valid(sink) && status.Okay? && !wantsToFinish && input == [] && b.flags == flags
      ensures b.base == 0 && b.start == StreamHeader(flags)
      ensures fresh(b.Repr()) && fresh(dict) && fresh(next) && fresh(hash)
    {
      hide BlockWriter.Separate, BitWriter.Valid, BitWriter.Intact, TokenBuffer.Valid, Stands, Lookahead;
      hide Compressor.Valid;
      b := new BlockWriter(flags);
      dict := new byte[DICT_LEN];
      next := new u16[DICT_SIZE];
      hash := new u16[DICT_SIZE](_ => 0);
      probes0 := 1 + (flags.probes + 2) / 3;
      probes1 := 1 + (flags.probes / 4 + 2) / 3;
      lookaheadPos, lookaheadSize, dictSize, dictPos, savedLit, savedLen, savedDist := 0, 0, 0, 0, 0, 0, 0;
      input, pos := [], 0;
      adler, finished, wantsToFinish, status := 1, false, false, Okay;
      new;
      NothingYet(dict[..], next[..], hash[..]);
      Fresh(sink);
    }

    lemma Fresh(sink: Sink)
      requires Shape() && Looks() && Links() && savedLen == 0 && Parses() && b.w.Valid() && b.w.Intact()
      requires b.w.bits == [] && b.base == 0 && b.start == b.Header()
      requires b.w.flushed == 0
      requires b.t.Valid() && b.t.codePos == 1 && b.blockIndex == 0 && b.plain == [] && sink.received == []
      requires input == [] && adler == 1 && !finished
      ensures Valid(sink)
    {
      hide *;
      NothingWaits();
      FreshReady(sink);
      RunningWhole(sink);
      NoChecksum(b.flags);
      Closed(sink);
    }

    lemma NothingWaits()
      requires Looks() && savedLen == 0
      ensures Saves()
    {
      hide Lookahead;
    }

    lemma FreshReady(sink: Sink)
      requires Shape() && b.w.Valid() && b.w.Intact() && b.t.Valid() && b.t.codePos == 1
      requires b.w.bits == [] && b.base == 0 && b.start == b.Header() && b.blockIndex == 0 && b.plain == []
      requires b.w.flushed == 0 && sink.received == []
      ensures b.Ready(sink) && b.StreamOk() && b.t.codePos <= BUF_SIZE - 8
    {
      b.w.WholeBytes();
      NothingDelivered();
      hide BitWriter.Valid, BitWriter.Intact, TokenBuffer.Valid, BlockWriter.Separate, ByteBits, Delivered, ZlibHeader;
      hide BlockWriter.Decodes;
    }

    /** The compressor's own arrays. */
    ghost predicate Shape() {
      && dict.Length == DICT_LEN && next.Length == DICT_SIZE && hash.Length == DICT_SIZE && next != hash
      && {dict as object, next, hash} !! b.Repr()
      && probes0 == Probes(b.flags, 0) && probes1 == Probes(b.flags, 32)
      && b.Separate()
    }

    /** The lookahead is in the ring. The history goes back to the last full flush, or as far as the ring holds it. */
    ghost predicate Looks()
      reads `input, `pos, `lookaheadPos, `lookaheadSize, `dictSize, dict, b`base
    {
      && Lookahead(dict[..], input, pos, lookaheadPos, lookaheadSize, dictSize)
      && b.base <= pos <= |input|
      && dictSize == if pos - b.base <= DICT_SIZE - lookaheadSize then pos - b.base else DICT_SIZE - lookaheadSize
    }

    /** The chains link all places since then of which three bytes are known. */
    ghost predicate Links()
      reads `input, next, hash, b`base
    {
      Linked(next[..], hash[..], input, b.base)
    }

    /** The input since then, and the place of the lookahead in it. */
    ghost function Data(): seq<byte>
      requires b.base <= |input|
      reads `input, b`base
    {
      input[b.base..]
    }

    ghost function Place(): nat
      requires b.base <= pos
      reads `pos, b`base
    {
      pos - b.base
    }

    ghost predicate Saves()
      reads `input, `pos, `savedLen, `savedDist, `savedLit, b`base
    {
      b.base <= pos <= |input| && Waiting(Data(), Place(), savedLen, savedDist, savedLit)
    }

    /** The tokens recorded and the blocks written stand for the input before the lookahead, less a saved literal. */
    ghost predicate Parses()
      reads `input, `pos, `savedLen, `dictPos, b, b.t
    {
      && b.plain <= input && dictPos == |b.plain| % WORD && b.base <= |b.plain| && b.base <= pos <= |input|
      && Stands(b.plain[b.base..], b.t.tokens, Data(), Parsed(Place(), savedLen))
    }

    /** The same, with the lookahead still to be moved by that much. */
    ghost predicate ParsedTo(move: nat)
      reads `input, `pos, `savedLen, `savedDist, `savedLit, b, b.t
    {
      && b.base <= |b.plain| && b.base <= pos <= |input|
      && Waiting(Data(), Place() + move, savedLen, savedDist, savedLit)
      && Stands(b.plain[b.base..], b.t.tokens, Data(), Parsed(Place() + move, savedLen))
    }

    /** The match that waits is one, with the lookahead still to be moved by that much. */
    ghost predicate Waits(move: nat)
      reads `input, `pos, `savedLen, `savedDist, `savedLit, b`base
    {
      b.base <= pos <= |input| && Waiting(Data(), Place() + move, savedLen, savedDist, savedLit)
    }

    /** The tokens stand for all before the lookahead. */
    ghost predicate AllTold()
      reads `input, `pos, b, b.t
    {
      && b.base <= |b.plain| && b.base <= pos <= |input|
      && Stands(b.plain[b.base..], b.t.tokens, Data(), Place())
    }

    /** The choice is one for the lookahead. */
    ghost predicate ChoiceHere(c: Choice)
      reads `input, `pos, b`base
    {
      b.base <= pos <= |input| && ChoiceOk(Data(), Place(), c)
    }

    /** How much of the input the tokens stand for. */
    ghost function Reached(): nat
      requires b.base <= pos
      reads `pos, `savedLen, b`base
    {
      b.base + Parsed(Place(), savedLen)
    }

    /** The match to be bettered: the one that waits, or two bytes, which are not worth it. */
    function Length0(): nat
      reads `savedLen
    {
      if savedLen > 0 then savedLen else 2
    }

    /** What the parser tries at the lookahead. */
    ghost predicate Tries(s: Choice)
      requires next.Length == DICT_SIZE
      reads next, `input, `pos, `lookaheadSize, `dictSize, `savedLen
    {
      Tried(b.flags, next[..], input, pos, lookaheadSize, dictSize, Length0(), s)
    }

    /**
     What is tried is as long as any match at the nearest places whose three bytes have the hash of the next three, back
     to the last full flush: as many of them as there are probes, less one.
     */
    lemma TriesNearest(s: Choice)
      requires Shape() && Looks() && Links() && Tries(s) && !b.flags.rle && !b.flags.forceRaw && 3 <= lookaheadSize
      ensures
        var probes := Probes(b.flags, Length0());
        NoLonger(input, pos, lookaheadSize,
          Earlier(input, b.base, pos, HashAt(input, pos), pos, dictSize, probes - 1), s.len)
    {
      hide Lookahead, FoundIn, NoLonger, Earlier, HashAt, Linked, Probes, BlockWriter.Separate, Latest;
      var probes := Probes(b.flags, Length0());
      LookaheadFacts(dict[..], input, pos, lookaheadPos, lookaheadSize, dictSize);
      var v :| FoundIn(next[..], input, pos, lookaheadSize, dictSize, Length0(), probes, s.dist, s.len, v);
      NearestTried(next[..], hash[..], input, b.base, pos, lookaheadSize, dictSize, Length0(), probes, s.dist,
        s.len, v);
    }

    /** Looks for the best match at the lookahead. */
    method Choose() returns (c: Choice, ghost s: Choice)
      requires Shape() && Looks() && Saves() && 1 <= lookaheadSize
      ensures Tries(s) && c == Taken(b.flags, pos, s)
      ensures ChoiceHere(c) && (c.dist == 0 ==> c.len <= Length0())
    {
      hide Lookahead, Best, MatchOk, ChoiceOk, FoundIn, RunIs, BlockWriter.Separate, Tried;
      LookaheadFacts(dict[..], input, pos, lookaheadPos, lookaheadSize, dictSize);
      WordMod(pos);
      var dist: nat, len: nat := 0, Length0();
      var at := lookaheadPos % DICT_SIZE;
      if b.flags.rle || b.flags.forceRaw {
        if dictSize > 0 && !b.flags.forceRaw {
          ByteBefore(dict[..], input, pos, lookaheadPos, lookaheadSize, dictSize);
          len := RunLength(dict, at, dict[(at - 1) % DICT_SIZE], lookaheadSize, input, pos, lookaheadPos, dictSize);
          ghost var n := len;
          if len < 3 {
            len := 0;
          } else {
            dist := 1;
          }
          TriedRun(b.flags, next[..], input, pos, lookaheadSize, dictSize, Length0(), n);
        } else {
          TriedNothing(b.flags, next[..], input, pos, lookaheadSize, dictSize, Length0());
        }
      } else {
        ghost var v;
        dist, len, v := FindMatch(dict, next, lookaheadPos, dictSize, lookaheadSize, len,
          if len >= 32 then probes1 else probes0, input, pos);
        TriedSearch(b.flags, next[..], input, pos, lookaheadSize, dictSize, Length0(), dist, len, v);
      }
      s := Choice(dist, len);
      TriedOk(b.flags, next[..], input, pos, lookaheadSize, dictSize, Length0(), s);
      TakenOk(b.flags, input, pos, s, Length0());
      ChoiceSince(input, b.base, pos, Taken(b.flags, pos, s));
      if (len == 3 && dist >= 8 * 1024) || at == dist || (b.flags.filter && len <= 5) {
        dist, len := 0, 0;
      }
      c := Choice(dist, len);
    }

    /** What is recorded of a choice. */
    ghost function OutcomeOf(c: Choice): Outcome
      reads `input, `pos, `savedLen, `savedDist, `savedLit
    {
      Decided(b.flags, savedLen, savedDist, savedLit, c, if pos < |input| then input[pos] else 0)
    }

    /** The tokens ts were recorded, and the match that waits is the outcome's. */
    ghost predicate Comes(o: Outcome, before: seq<Token>, move: nat)
      reads `savedLen, `savedDist, `savedLit, b, b.t
    {
      && b.t.tokens == before + o.tokens && savedLen == o.len && move == o.move
      && (savedLen > 0 ==> savedDist == o.dist && savedLit == o.lit)
    }

    /** Records tokens for the choice, or saves it; says how far the lookahead moves. */
    method Record(c: Choice) returns (move: nat)
      requires Shape() && Looks() && Saves() && Parses() && 1 <= lookaheadSize && b.t.Valid()
      requires b.t.codePos <= BUF_SIZE - 8 && pos < |input|
      requires ChoiceHere(c) && (c.dist == 0 ==> c.len <= Length0())
      modifies b.t, b.t.buf, b.t.litCounts, b.t.distCounts, `savedLit, `savedLen, `savedDist
      ensures 1 <= move <= lookaheadSize && b.t.Valid()
      ensures ParsedTo(move)
      ensures Comes(old(OutcomeOf(c)), old(b.t.tokens), move)
    {
      hide Lookahead, Waiting, ChoiceOk, Stands, BlockWriter.Separate, TokenBuffer.Valid, MatchOk;
      LookaheadFacts(dict[..], input, pos, lookaheadPos, lookaheadSize, dictSize);
      LookaheadByte(dict[..], input, pos, lookaheadPos, lookaheadSize, dictSize, 0, 0);
      WordMod(pos);
      var lit := dict[lookaheadPos % DICT_SIZE];
      move := 1;
      if savedLen > 0 {
        move := RecordSaved(c, lit);
      } else if c.dist == 0 {
        RecordedLiteral(b.plain[b.base..], b.t.tokens, Data(), Place(), lit);
        b.t.RecordLiteral(lit);
        NothingSaved(Data(), Place() + 1, savedDist, savedLit);
      } else {
        ChoiceMatch(Data(), Place(), c);
        if b.flags.greedy || b.flags.rle || c.len >= 128 {
          RecordChoice(c);
          move := c.len;
        } else {
          Save(c, lit);
        }
      }
    }

    /** A match is waiting: a better choice turns its first byte into a literal. */
    method RecordSaved(c: Choice, lit: byte) returns (move: nat)
      requires Saves() && savedLen > 0 && b.t.Valid() && b.t.codePos <= BUF_SIZE - 8 && b.Separate()
      requires ParsedTo(0) && pos < |input| == pos + lookaheadSize
      requires lit == input[pos]
      requires ChoiceHere(c) && (c.dist == 0 ==> c.len <= savedLen)
      modifies b.t, b.t.buf, b.t.litCounts, b.t.distCounts, `savedLit, `savedLen, `savedDist
      ensures 1 <= move <= lookaheadSize && b.t.Valid()
      ensures ParsedTo(move)
      ensures Comes(old(OutcomeOf(c)), old(b.t.tokens), move)
    {
      hide Waiting, ChoiceOk, Stands, BlockWriter.Separate, TokenBuffer.Valid, MatchOk;
      SavedFits(Data(), Place(), savedLen, savedDist, savedLit);
      if c.len > savedLen {
        RecordedLiteral(b.plain[b.base..], b.t.tokens, Data(), Place() - 1, savedLit);
        ChoiceMatch(Data(), Place(), c);
        b.t.RecordLiteral(savedLit);
        if c.len >= 128 {
          RecordChoice(c);
          move := c.len;
        } else {
          Save(c, lit);
          move := 1;
        }
      } else {
        StandsMatch(b.plain[b.base..], b.t.tokens, Data(), Place() - 1, savedLen, savedDist);
        b.t.RecordMatch(savedLen, savedDist);
        move := savedLen - 1;
        savedLen := 0;
        NothingSaved(Data(), Place() + move, savedDist, savedLit);
      }
    }

    method RecordChoice(c: Choice)
      requires AllTold() && ChoiceHere(c) && c.dist > 0
      requires b.t.Valid() && b.t.codePos + 4 <= BUF_SIZE && b.Separate()
      modifies b.t, b.t.buf, b.t.litCounts, b.t.distCounts, `savedLen
      ensures b.t.Valid() && savedLen == 0 && ParsedTo(c.len)
      ensures b.t.tokens == old(b.t.tokens) + [Match(c.len, c.dist)]
    {
      hide Waiting, ChoiceOk, Stands, BlockWriter.Separate, TokenBuffer.Valid, MatchOk;
      ChoiceMatch(Data(), Place(), c);
      StandsMatch(b.plain[b.base..], b.t.tokens, Data(), Place(), c.len, c.dist);
      b.t.RecordMatch(c.len, c.dist);
      savedLen := 0;
      NothingSaved(Data(), Place() + c.len, savedDist, savedLit);
    }

    method Save(c: Choice, lit: byte)
      requires ChoiceHere(c) && c.dist > 0 && c.len < 128 && pos < |input| && lit == input[pos]
      modifies `savedLit, `savedLen, `savedDist
      ensures Waits(1) && savedLen == c.len > 0
      ensures savedDist == c.dist && savedLit == lit
    {
      hide Waiting, ChoiceOk, MatchOk;
      ChoiceMatch(Data(), Place(), c);
      SavedStarts(Data(), Place(), c, lit);
      savedLit, savedDist, savedLen := lit, c.dist, c.len;
    }

    /** Puts a byte into the ring, and into the mirror if it is one of the first 257. */
    method WriteByte(at: nat, c: byte)
      requires dict.Length == DICT_LEN && Window(dict[..], input) && at == |input| % DICT_SIZE
      modifies dict, `input
      ensures input == old(input) + [c] && Window(dict[..], input)
    {
      ghost var d := dict[..];
      WindowNext(d, input, c);
      hide Window;
      dict[at] := c;
      if at < 257 {
        dict[DICT_SIZE + at] := c;
      }
      assert dict[..] == Written(d, at, c);
      input := input + [c];
    }

    /** Enters the place insPos into the hash chain of index h. */
    method Insert(insPos: nat, h: nat)
      requires next.Length == DICT_SIZE && hash.Length == DICT_SIZE && next != hash && h < DICT_SIZE
      modifies next, hash
      ensures next[..] == old(next[..])[insPos % DICT_SIZE := old(hash[h])]
      ensures hash[..] == old(hash[..])[h := insPos % 65536]
    {
      next[insPos % DICT_SIZE] := hash[h];
      hash[h] := insPos % 65536;
    }

    /** Reads a byte, with which the place two before it can be entered. */
    method ReadByte(at: nat, c: byte, insPos: nat, h: bv32)
      requires Shape() && Window(dict[..], input) && at == |input| % DICT_SIZE
      requires b.base + 2 <= |input| && insPos == (|input| - 2) % WORD && Linked(next[..], hash[..], input, b.base)
      requires HashIndex(h)
            == HashIndex(HashThree(Bits32(input[|input| - 2]), Bits32(input[|input| - 1]), Bits32(c)))
      modifies dict, next, hash, `input
      ensures input == old(input) + [c] && Window(dict[..], input) && Linked(next[..], hash[..], input, b.base)
    {
      hide Window, Linked, BlockWriter.Separate, BlockWriter.Repr, HashIndex, HashThree, Bits32;
      ghost var before, m := input, |input| - 2;
      WriteByte(at, c);
      HashedPlace(before, c, m, insPos);
      LinkedNext(next[..], hash[..], before, b.base, c, m, HashIndex(h));
      Insert(insPos, HashIndex(h));
    }

    /** Reads n bytes when the hash of the two bytes before them can be computed. */
    method ReadMany(src: seq<byte>, from: nat, n: nat)
      requires Shape() && Looks() && from + n <= |src| && b.base + 2 <= |input|
      requires Linked(next[..], hash[..], input, b.base)
      modifies dict, next, hash, `input
      ensures input == old(input) + src[from..from + n] && Window(dict[..], input)
      ensures Linked(next[..], hash[..], input, b.base)
    {
      hide Window, Linked, BlockWriter.Separate, BlockWriter.Repr, Written, HashIndex, HashThree, Bits32, HashTwo;
      hide Rolling;
      var dstPos := (lookaheadPos + lookaheadSize) % DICT_SIZE;
      var insPos := (lookaheadPos + lookaheadSize - 2) % WORD;
      LastTwo(dict[..], input, pos, lookaheadPos, lookaheadSize, dictSize, insPos);
      var h := HashTwo(Bits32(dict[insPos % DICT_SIZE]), Bits32(dict[(insPos + 1) % DICT_SIZE]));
      RollStarts(Bits32(input[|input| - 2]), Bits32(input[|input| - 1]));
      assert src[from..from] == [];
      for k := 0 to n
        invariant input == old(input) + src[from..from + k] && Window(dict[..], input) && b.base + 2 <= |input|
        invariant dstPos == |input| % DICT_SIZE && insPos == (|input| - 2) % WORD
        invariant Linked(next[..], hash[..], input, b.base)
        invariant Rolling(h, Bits32(input[|input| - 2]), Bits32(input[|input| - 1]))
      {
        var c := src[from + k];
        RollNext(h, Bits32(input[|input| - 2]), Bits32(input[|input| - 1]), Bits32(c));
        h := HashStep(h, Bits32(c));
        ReadByte(dstPos, c, insPos, h);
        NextPlace(|input| - 1);
        WordSum(|input| - 3, 1);
        assert src[from..from + k] + [c] == src[from..from + k + 1];
        dstPos := (dstPos + 1) % DICT_SIZE;
        insPos := (insPos + 1) % WORD;
      }
    }

    /** Reads up to n bytes one by one while there may be too few before them to hash. */
    method ReadFew(src: seq<byte>, from: nat, n: nat)
      requires Shape() && Looks() && from + n <= |src| && Linked(next[..], hash[..], input, b.base)
      requires dictSize + lookaheadSize == |input| - b.base
      modifies dict, next, hash, `input, `lookaheadSize
      ensures input == old(input) + src[from..from + n] && Window(dict[..], input)
      ensures lookaheadSize == old(lookaheadSize) + n && Linked(next[..], hash[..], input, b.base)
    {
      hide Window, Linked, BlockWriter.Separate, BlockWriter.Repr, Written, HashIndex, HashThree, Bits32;
      assert src[from..from] == [];
      for k := 0 to n
        invariant input == old(input) + src[from..from + k] && Window(dict[..], input)
        invariant lookaheadSize == old(lookaheadSize) + k && |input| == pos + lookaheadSize
        invariant dictSize + lookaheadSize == |input| - b.base && Linked(next[..], hash[..], input, b.base)
      {
        var c := src[from + k];
        RingPlace(pos, lookaheadSize);
        ghost var before := input;
        WriteByte((lookaheadPos + lookaheadSize) % DICT_SIZE, c);
        lookaheadSize := lookaheadSize + 1;
        if lookaheadSize + dictSize >= 3 {
          var insPos := (lookaheadPos + lookaheadSize - 3) % WORD;
          WordMoved(pos, lookaheadSize - 3);
          HashedPlace(before, c, |before| - 2, insPos);
          TwoInRing(dict[..], input, |before| - 2, insPos);
          var h := HashThree(Bits32(dict[insPos % DICT_SIZE]), Bits32(dict[(insPos + 1) % DICT_SIZE]), Bits32(c));
          LinkedNext(next[..], hash[..], before, b.base, c, |before| - 2, HashIndex(h));
          Insert(insPos, HashIndex(h));
        } else {
          LinkedFew(next[..], hash[..], before, b.base, c);
        }
        assert src[from..from + k] + [c] == src[from..from + k + 1];
      }
    }

    /** Fills the lookahead up to 258 bytes, and cuts the history to what the ring still holds. */
    method Fill(src: seq<byte>, from: nat) returns (to: nat)
      requires Shape() && Looks() && Links() && from <= |src|
      modifies dict, next, hash, `input, `lookaheadSize, `dictSize
      ensures from <= to <= |src| && input == old(input) + src[from..to] && Looks() && Links()
      ensures lookaheadSize == old(lookaheadSize) + (to - from) && (to == |src| || lookaheadSize == 258)
      ensures lookaheadSize <= 258
    {
      hide Window, Linked, BlockWriter.Separate, BlockWriter.Repr;
      var n: nat := if |src| - from <= 258 - lookaheadSize then |src| - from else 258 - lookaheadSize;
      to := from + n;
      if lookaheadSize + dictSize >= 2 {
        ReadMany(src, from, n);
        lookaheadSize := lookaheadSize + n;
      } else {
        ReadFew(src, from, n);
      }
      if dictSize > DICT_SIZE - lookaheadSize {
        dictSize := DICT_SIZE - lookaheadSize;
      }
    }

    /** Writes the tokens so far as a block. */
    method FlushTokens(flush: Flush, adler: nat, sink: Sink) returns (ok: bool)
      requires Shape() && Looks() && Saves() && Parses() && b.Ready(sink) && b.StreamOk() && adler < 0x1_0000_0000
      modifies b.Repr(), `dictPos, sink
      ensures Looks() && Saves()
      ensures Parses() && b.Ready(sink) && b.t.codePos <= BUF_SIZE - 8
      ensures b.plain == input[..Reached()] && b.blockIndex == old(b.blockIndex) + 1
      ensures b.base == old(b.base) && b.start == old(b.start) && b.t.tokens == []
      ensures !flush.NoFlush? ==> |b.w.bits| % 8 == 0
      ensures if flush.Finish? then b.Finished(adler) else b.StreamOk()
      ensures if ok then sink.refused == old(sink.refused) else sink.refused
    {
      hide Lookahead, Stands, RingHolds, Waiting, BlockWriter.Separate, BlockWriter.StreamOk, BlockWriter.Finished;
      hide TokensOk, Expand;
      hide BitWriter.Valid, TokenBuffer.Valid, BitWriter.Intact, Delivered;
      ghost var n, plain := Reached(), b.plain;
      ghost var block := BlockStands(plain, b.t.tokens, input, b.base, n);
      TotalIs(b.t);
      LookaheadFacts(dict[..], input, pos, lookaheadPos, lookaheadSize, dictSize);
      TotalSmall(b.t);
      var total := b.t.totalBytes;
      var rawFits := (lookaheadPos - dictPos) % WORD <= dictSize;
      WordDifference(pos, |plain|);
      if rawFits {
        BlockInRing(dict[..], input, pos, lookaheadPos, lookaheadSize, dictSize, |plain|, n, dictPos);
      }
      ok := b.FlushBlock(flush, dict, dictPos, rawFits, adler, sink, block);
      dictPos := (dictPos + total) % WORD;
      WordSum(|plain|, total);
      StandsAgain(input, b.base, n);
    }

    /** Between two steps of the parser, except that the token buffer may be full. */
    ghost predicate Advanced(sink: Sink)
      reads `input, `pos, `lookaheadPos, `lookaheadSize, `dictSize, `savedLen, `savedDist, `savedLit, `dictPos
      reads dict, next, hash, b, b.w, b.w.out, b.t, b.t.buf, b.t.litCounts, b.t.distCounts, sink
    {
      Shape() && Looks() && Links() && Saves() && Parses() && b.Ready(sink) && b.StreamOk()
    }

    /** Between two steps of the parser. */
    ghost predicate Running(sink: Sink)
      reads `input, `pos, `lookaheadPos, `lookaheadSize, `dictSize, `savedLen, `savedDist, `savedLit, `dictPos
      reads dict, next, hash, b, b.w, b.w.out, b.t, b.t.buf, b.t.litCounts, b.t.distCounts, sink
    {
      Advanced(sink) && b.t.codePos <= BUF_SIZE - 8
    }

    /** Moves the lookahead forward. */
    method Move(n: nat)
      requires Looks() && Links() && n <= lookaheadSize
      modifies `pos, `lookaheadPos, `lookaheadSize, `dictSize
      ensures Looks() && Links() && pos == old(pos) + n && lookaheadSize == old(lookaheadSize) - n
    {
      hide Window, Linked;
      WordSum(pos, n);
      pos := pos + n;
      lookaheadPos := (lookaheadPos + n) % WORD;
      lookaheadSize := lookaheadSize - n;
      dictSize := Min(dictSize + n, DICT_SIZE);
    }

    /** The token buffer is nearly full, or the block has become long and does not compress. */
    predicate TimeToFlush()
      reads this, b, b.t
    {
      || b.t.codePos > BUF_SIZE - 8
      || (b.t.totalBytes > 31 * 1024 && (b.t.codePos * 115 / 128 >= b.t.totalBytes || b.flags.forceRaw))
    }

    lemma RingApart()
      requires Shape()
      ensures dict !in b.Repr() && next !in b.Repr() && hash !in b.Repr() && b in b.Repr() && this !in b.Repr()
      ensures b.t in b.Repr() && b.t.buf in b.Repr() && b.t.litCounts in b.Repr() && b.t.distCounts in b.Repr()
    {
    }

    lemma Apart()
      requires Shape()
      ensures b.w.out != b.t.buf && b.w.out as object != b.t.litCounts && b.w.out as object != b.t.distCounts
      ensures dict != b.t.buf && dict as object != b.t.litCounts && dict as object != b.t.distCounts
    {
    }

    /** A choice is recorded and the lookahead moves. */
    method Advance(ghost sink: Sink) returns (ghost s: Choice)
      requires Running(sink) && 1 <= lookaheadSize
      modifies b.t, b.t.buf, b.t.litCounts, b.t.distCounts, `lookaheadPos, `lookaheadSize, `dictSize, `savedLit
      modifies `savedLen, `savedDist, `pos
      ensures Advanced(sink) && input == old(input) && lookaheadSize < old(lookaheadSize)
      ensures old(Tries(s)) && old(pos < |input|) && old(pos) <= pos
      ensures Comes(old(OutcomeOf(Taken(b.flags, pos, s))), old(b.t.tokens), pos - old(pos))
    {
      hide Lookahead, Stands, BlockWriter.Separate, BlockWriter.StreamOk, BlockWriter.Finished, BitWriter.Valid;
      hide TokenBuffer.Valid;
      hide BitWriter.Intact, Delivered, ChoiceOk, Waiting, Compressor.Shape, Linked, Tried, Decided, Taken;
      Apart();
      var c;
      c, s := Choose();
      LookaheadFacts(dict[..], input, pos, lookaheadPos, lookaheadSize, dictSize);
      var move := Record(c);
      Move(move);
    }

    /**
     One step of the parser. A block is written exactly when the token buffer has fewer than eight bytes left, or the
     block has more than 31 KB and does not compress or is to be raw.
     */
    method Step(sink: Sink) returns (ok: bool, ghost s: Choice, ghost codePos: nat)
      requires Running(sink) && 1 <= lookaheadSize
      modifies b.Repr(), `lookaheadPos, `lookaheadSize, `dictSize, `savedLit, `savedLen, `savedDist, `pos, `dictPos
      modifies sink
      ensures ok ==> Running(sink) && input == old(input) && lookaheadSize < old(lookaheadSize)
      ensures old(Tries(s)) && (b.blockIndex == old(b.blockIndex) ==> codePos == b.t.codePos)
      ensures var total := TotalLength(old(b.t.tokens) + old(OutcomeOf(Taken(b.flags, pos, s)).tokens));
        b.blockIndex == old(b.blockIndex) + if codePos > 65528
          || (total > 31744 && (115 * codePos / 128 >= total || b.flags.forceRaw)) then 1 else 0
      ensures b.base == old(b.base) && b.start == old(b.start)
      ensures if ok then sink.refused == old(sink.refused) else sink.refused
    {
      hide Lookahead, Stands, BlockWriter.StreamOk, BlockWriter.Finished, BlockWriter.Ready, Waiting, Compressor.Shape;
      hide BlockWriter.Repr, Tried, Decided, Taken, TotalLength, Linked;
      RingApart();
      s := Advance(sink);
      TotalNow(sink);
      ok, codePos := true, b.t.codePos;
      if TimeToFlush() {
        ok := FlushTokens(NoFlush, 0, sink);
      }
    }

    lemma TotalNow(sink: Sink)
      requires Advanced(sink)
      ensures b.t.totalBytes == TotalLength(b.t.tokens)
    {
      TotalIs(b.t);
    }

    /** Compresses a piece of input; without a flush up to 258 bytes may stay in the lookahead. */
    method CompressNormal(src: seq<byte>, flush: Flush, sink: Sink) returns (ok: bool, at: nat)
      requires Running(sink)
      modifies b.Repr(), dict, next, hash, `lookaheadPos, `lookaheadSize, `dictSize, `savedLit, `savedLen, `savedDist
      modifies `pos, `dictPos, `input, sink
      ensures ok ==> Running(sink) && at == |src| && input == old(input) + src
      ensures ok && !flush.NoFlush? ==> lookaheadSize == 0
      ensures ok && flush.NoFlush? && src != [] ==> lookaheadSize < 258
      ensures ok && flush.NoFlush? && old(lookaheadSize) + |src| < 258 ==> pos == old(pos)
      ensures b.base == old(b.base) && b.start == old(b.start)
      ensures if ok then sink.refused == old(sink.refused) else sink.refused
    {
      hide *;
      at := 0;
      assert src[..0] == [];
      while at < |src| || (!flush.NoFlush? && lookaheadSize > 0)
        invariant at <= |src| && Running(sink) && input == old(input) + src[..at] && sink.refused == old(sink.refused)
        invariant b.base == old(b.base) && b.start == old(b.start) && (at == 0 || lookaheadSize < 258)
        invariant flush.NoFlush? && old(lookaheadSize) + |src| < 258 ==>
          pos == old(pos) && lookaheadSize == old(lookaheadSize) + at
        decreases 2 * (|src| - at) + lookaheadSize
      {
        var from := at;
        at := FillFrom(src, from, sink);
        assert src[..from] + src[from..at] == src[..at];
        if flush.NoFlush? && lookaheadSize < 258 {
          break;
        }
        ghost var s, codePos;
        ok, s, codePos := Step(sink);
        if !ok {
          return;
        }
      }
      assert src[..|src|] == src;
      ok := true;
    }

    method FillFrom(src: seq<byte>, from: nat, sink: Sink) returns (to: nat)
      requires Running(sink) && from <= |src|
      modifies dict, next, hash, `input, `lookaheadSize, `dictSize
      ensures Running(sink) && from <= to <= |src| && input == old(input) + src[from..to]
      ensures lookaheadSize == old(lookaheadSize) + (to - from) && (to == |src| || lookaheadSize == 258)
      ensures lookaheadSize <= 258
    {
      hide BlockWriter.Ready, BlockWriter.StreamOk, Lookahead, Stands, Waiting, BlockWriter.Separate;
      ghost var before := input;
      to := Fill(src, from);
      assert input[b.base..] == before[b.base..] + src[from..to];
      StandsMore(b.plain[b.base..], b.t.tokens, before[b.base..], Parsed(Place(), savedLen), src[from..to]);
      WaitingMore(before[b.base..], Place(), savedLen, savedDist, savedLit, src[from..to]);
    }

    /** Between two calls. */
    ghost predicate Valid(sink: Sink)
      reads this, dict, next, hash, b, b.w, b.w.out, b.t, b.t.buf, b.t.litCounts, b.t.distCounts, sink
    {
      status.Okay? ==> Running(sink) && !finished && adler == Checksum(b.flags, input)
    }

    /**
     Compresses a piece of input. As long as all goes well every byte is taken; a flush makes everything so far
     decodable, and finishing completes the stream. What comes after a full flush decodes without what was before.
     */
    method Compress(src: seq<byte>, flush: Flush, sink: Sink) returns (result: Status, taken: nat)
      requires Valid(sink) && Shape()
      modifies b.Repr(), dict, next, hash, this, sink
      ensures Valid(sink) && status == result
      ensures result.BadParam? ==> taken == 0
      ensures result.Okay? || result.Done? ==> taken == |src| && input == old(input) + src
      ensures result.Okay? && !flush.NoFlush? ==> StreamSoFar(b.flags, input, sink.received)
      ensures result.Done? ==> flush.Finish? && StreamFor(b.flags, input, sink.received)
      ensures result.Okay? ==> !flush.Finish?
      ensures result.BadParam? <==> !old(status).Okay? || (old(wantsToFinish) && !flush.Finish?)
      ensures (result.Okay? && !flush.NoFlush?) || result.Done? ==> old(b.base) <= |input|
      ensures result.Okay? && !flush.NoFlush? ==> SinceSoFar(old(b.start), input[old(b.base)..], sink.received)
      ensures result.Done? ==> SinceFor(b.flags, input, old(b.start), input[old(b.base)..], sink.received)
      ensures if result.Okay? && flush.FullFlush? then b.base == |input| && b.start == ByteBits(sink.received)
        else b.base == old(b.base) && b.start == old(b.start)
      ensures if result.PutBufFailed? then sink.refused else sink.refused == old(sink.refused)
    {
      hide *;
      taken := 0;
      if !status.Okay? || (wantsToFinish && !flush.Finish?) {
        status := BadParam;
        NotValid(sink);
        return BadParam, 0;
      }
      Opened(sink);
      RingApart();
      ChecksumMore(b.flags, input, src);
      wantsToFinish := wantsToFinish || flush.Finish?;
      var ok, at := CompressNormal(src, flush, sink);
      if !ok {
        status := PutBufFailed;
        NotValid(sink);
        return PutBufFailed, at;
      }
      taken := at;
      assert src[..at] == src;
      if b.flags.zlib || b.flags.adler {
        adler := Adler32.Adler32(adler, src[..at]);
      }
      ChecksumMore(b.flags, input, []);
      if !flush.NoFlush? {
        result := CompressFlush(flush, sink);
      } else {
        status := Okay;
        Closed(sink);
        result := Okay;
      }
    }

    lemma NotValid(sink: Sink)
      requires !status.Okay?
      ensures Valid(sink)
    {
    }

    lemma Opened(sink: Sink)
      requires Valid(sink) && status.Okay?
      ensures Running(sink) && !finished && adler == Checksum(b.flags, input)
    {
      hide Compressor.Running;
    }

    lemma Closed(sink: Sink)
      requires Running(sink) && !finished && adler == Checksum(b.flags, input)
      ensures Valid(sink)
    {
      hide Compressor.Running;
    }

    /** With the lookahead empty no match waits. */
    lemma AllParsed(sink: Sink)
      requires Running(sink) && lookaheadSize == 0
      ensures savedLen == 0 && Reached() == |input| && input[..|input|] == input
    {
      LookaheadFacts(dict[..], input, pos, lookaheadPos, lookaheadSize, dictSize);
      hide Lookahead, Stands, BlockWriter.Ready, BlockWriter.StreamOk, Compressor.Shape;
      if savedLen > 0 {
        SavedFits(Data(), Place(), savedLen, savedDist, savedLit);
      }
    }

    lemma RunningParts(sink: Sink)
      requires Running(sink)
      ensures Shape() && Looks() && Links() && Saves() && Parses() && b.Ready(sink) && b.StreamOk()
      ensures b.t.codePos <= BUF_SIZE - 8
    {
    }

    lemma RunningWhole(sink: Sink)
      requires Shape() && Looks() && Links() && Saves() && Parses() && b.Ready(sink) && b.StreamOk()
      requires b.t.codePos <= BUF_SIZE - 8
      ensures Running(sink)
    {
    }

    /** All of a byte-aligned stream has been delivered. */
    lemma AllDelivered(sink: Sink)
      requires b.Ready(sink) && |b.w.bits| % 8 == 0
      ensures ByteBits(sink.received) == b.w.bits
    {
      b.w.WholeBytes();
      hide Held, ByteBits, Layout, Counted;
      assert b.w.bits[0..0 + |ByteBits(sink.received)|] == b.w.bits;
    }

    lemma SoFar(sink: Sink)
      requires b.blockIndex > 0 && b.StreamOk() && b.plain == input && ByteBits(sink.received) == b.w.bits
      ensures b.base <= |input| && StreamSoFar(b.flags, input, sink.received)
      ensures SinceSoFar(b.start, input[b.base..], sink.received)
    {
      hide Continues, ByteBits, ZlibHeader;
    }

    lemma Whole(sink: Sink)
      requires adler == Checksum(b.flags, input) < 0x1_0000_0000 && b.Finished(adler) && b.plain == input
      requires ByteBits(sink.received) == b.w.bits
      ensures b.base <= |input| && StreamFor(b.flags, input, sink.received)
      ensures SinceFor(b.flags, input, b.start, input[b.base..], sink.received)
    {
      hide Ends, ByteBits, ZlibHeader, Trailer, Checksum;
    }

    /** Writes the last tokens as a block, once all input has been parsed. */
    method CompressFlush(flush: Flush, sink: Sink) returns (result: Status)
      requires Running(sink) && lookaheadSize == 0 && !finished && adler == Checksum(b.flags, input) < 0x1_0000_0000
      requires !flush.NoFlush?
      modifies b.Repr(), next, hash, this, sink
      ensures Valid(sink) && status == result && input == old(input)
      ensures result.Okay? ==> !flush.Finish? && StreamSoFar(b.flags, input, sink.received)
      ensures result.Done? ==> flush.Finish? && StreamFor(b.flags, input, sink.received)
      ensures !result.BadParam?
      ensures old(b.base) <= |input|
      ensures result.Okay? ==> SinceSoFar(old(b.start), input[old(b.base)..], sink.received)
      ensures result.Done? ==> SinceFor(b.flags, input, old(b.start), input[old(b.base)..], sink.received)
      ensures if result.Okay? && flush.FullFlush? then b.base == |input| && b.start == ByteBits(sink.received)
        else b.base == old(b.base) && b.start == old(b.start)
      ensures if result.PutBufFailed? then sink.refused else sink.refused == old(sink.refused)
    {
      hide *;
      AllParsed(sink);
      RunningParts(sink);
      RingApart();
      var ok := FlushTokens(flush, adler, sink);
      if !ok {
        status := PutBufFailed;
        NotValid(sink);
        return PutBufFailed;
      }
      AllDelivered(sink);
      if flush.Finish? {
        Whole(sink);
        finished, status := true, Done;
        NotValid(sink);
        return Done;
      }
      SoFar(sink);
      RunningWhole(sink);
      if flush.FullFlush? {
        ForgetHistory(sink);
      }
      status := Okay;
      Closed(sink);
      result := Okay;
    }

    /** After a full flush nothing reaches back. */
    method ForgetHistory(sink: Sink)
      requires Running(sink) && b.plain == input && b.t.tokens == [] && lookaheadSize == 0 && savedLen == 0
      requires b.blockIndex > 0
      modifies next, hash, `dictSize, b`base, b`start
      ensures Running(sink) && dictSize == 0 && b.base == |input| && b.start == b.w.bits
    {
      hide *;
      RunningParts(sink);
      LooksParts();
      Chains();
      ghost var ring := dict[..];
      forall i | 0 <= i < hash.Length {
        hash[i] := 0;
      }
      forall i | 0 <= i < next.Length {
        next[i] := 0;
      }
      dictSize := 0;
      b.Restart(sink);
      assert dict[..] == ring;
      Forgotten();
      RunningWhole(sink);
    }

    lemma LooksParts()
      requires Shape() && Looks() && Parses()
      ensures Window(dict[..], input) && |input| == pos + lookaheadSize && lookaheadPos == pos % WORD
      ensures next.Length == DICT_SIZE && hash.Length == DICT_SIZE && dict.Length == DICT_LEN
      ensures dictPos == |b.plain| % WORD
    {
      hide Window, Stands;
    }

    lemma Forgotten()
      requires next.Length == DICT_SIZE && hash.Length == DICT_SIZE && dict.Length == DICT_LEN
      requires forall i :: 0 <= i < DICT_SIZE ==> hash[i] == 0
      requires b.base == |input| == pos && dictSize == 0 == lookaheadSize && savedLen == 0 && b.plain == input
      requires b.t.tokens == [] && dictPos == |b.plain| % WORD && Window(dict[..], input) && lookaheadPos == pos % WORD
      ensures Looks() && Links() && Saves() && Parses()
    {
      assert input[|input|..] == [];
      StandsStart([], []);
      hide Window, Stands, HashAt;
    }

    lemma Chains()
      requires Shape()
      ensures next != hash && next !in b.Repr() && hash !in b.Repr() && dict as object != next && dict as object != hash
      ensures b in b.Repr() && b.w in b.Repr() && b.w.out in b.Repr() && b.t in b.Repr() && b.t.buf in b.Repr()
      ensures b.t.litCounts in b.Repr() && b.t.distCounts in b.Repr() && this !in b.Repr()
    {
    }
  }

  /** The hash of a place when its third byte has come, and where the place is entered. */
  lemma HashedPlace(before: seq<byte>, c: byte, m: nat, insPos: nat)
    requires m + 2 == |before| && insPos == m % WORD
    ensures HashAt(before + [c], m) == HashIndex(HashThree(Bits32(before[m]), Bits32(before[m + 1]), Bits32(c)))
    ensures insPos % DICT_SIZE == m % DICT_SIZE && insPos % 65536 == m % 65536
  {
    hide HashIndex, HashThree, Bits32;
    WordMod(m);
    var q := m / WORD;
    assert m == 65536 * (65536 * q) + insPos;
  }

  /** Two bytes of the ring that follow each other. */
  lemma TwoInRing(dict: seq<byte>, input: seq<byte>, m: nat, place: nat)
    requires Window(dict, input) && m + 1 < |input| <= m + DICT_SIZE && place == m % WORD
    ensures |dict| == DICT_LEN && dict[place % DICT_SIZE] == input[m] && dict[(place + 1) % DICT_SIZE] == input[m + 1]
  {
    assert InRing(dict, input, m) && InRing(dict, input, m + 1);
    RingPlace(m, 0);
    RingPlace(m, 1);
  }

  /** The last two bytes of the input in the ring. */
  lemma LastTwo(dict: seq<byte>, input: seq<byte>, pos: nat, lookaheadPos: nat, lookaheadSize: nat, dictSize: nat,
                place: nat)
    requires Lookahead(dict, input, pos, lookaheadPos, lookaheadSize, dictSize) && 2 <= |input|
    requires place == (lookaheadPos + lookaheadSize - 2) % WORD
    ensures place == (|input| - 2) % WORD && (lookaheadPos + lookaheadSize) % DICT_SIZE == |input| % DICT_SIZE
    ensures |dict| == DICT_LEN && Window(dict, input)
    ensures dict[place % DICT_SIZE] == input[|input| - 2] && dict[(place + 1) % DICT_SIZE] == input[|input| - 1]
  {
    hide Window;
    RingPlace(pos, lookaheadSize);
    WordMoved(pos, lookaheadSize - 2);
    TwoInRing(dict, input, |input| - 2, place);
  }

  lemma WordMoved(pos: nat, k: int)
    requires 0 <= pos + k
    ensures (pos % WORD + k) % WORD == (pos + k) % WORD
  {
    var q, r := (pos + k) / WORD, (pos + k) % WORD;
    assert pos == WORD * (pos / WORD) + pos % WORD;
    assert pos % WORD + k == WORD * (q - pos / WORD) + r;
    Wraps(q - pos / WORD, r);
  }

  /** The bytes that the tokens add to what has been written. */
  lemma BlockStands(plain: seq<byte>, ts: seq<Token>, input: seq<byte>, base: nat, n: nat) returns (block: seq<byte>)
    requires plain <= input && base <= |plain| && base <= n && Stands(plain[base..], ts, input[base..], n - base)
    ensures |plain| <= n <= |input| && block == input[|plain|..n] && plain + block == input[..n]
    ensures TokensOk(ts, |plain[base..]|) && Expand(plain[base..], ts) == plain[base..] + block
    ensures |block| == TotalLength(ts)
  {
    hide Expand, TokensOk;
    StandsBlock(plain[base..], ts, input[base..], n - base);
    StandsOk(plain[base..], ts, input[base..], n - base);
    block := input[|plain|..n];
    assert input[base..][|plain[base..]|..n - base] == block;
  }

  /** All tokens are written. */
  lemma StandsAgain(input: seq<byte>, base: nat, n: nat)
    requires base <= n <= |input|
    ensures Stands(input[..n][base..], [], input[base..], n - base)
  {
    assert input[..n][base..] <= input[base..];
    StandsStart(input[..n][base..], input[base..]);
  }

  lemma StandsOk(plain: seq<byte>, ts: seq<Token>, input: seq<byte>, n: nat)
    requires Stands(plain, ts, input, n)
    ensures TokensOk(ts, |plain|) && n <= |input| && |plain| + TotalLength(ts) == n
  {
  }

  lemma TotalIs(t: TokenBuffer)
    requires t.Valid()
    ensures t.totalBytes == TotalLength(t.tokens)
  {
  }

  lemma {:induction false} TotalBound(ts: seq<Token>)
    requires AllPackable(ts)
    ensures TotalLength(ts) <= 258 * |ts|
  {
    if ts != [] {
      TotalBound(ts[..|ts| - 1]);
    }
  }

  /** A token buffer stands for far fewer than 2^32 bytes. */
  lemma TotalSmall(t: TokenBuffer)
    requires t.Valid()
    ensures t.totalBytes <= 258 * BUF_SIZE
  {
    hide Counted;
    var k := |t.tokens| + t.flagsLeft - 8;
    PackGrows(t.tokens[..k]);
    PayloadsGrow(t.tokens[k..]);
    TotalBound(t.tokens);
    hide Pack, Payloads;
  }

  lemma WordDifference(p: nat, q: nat)
    requires q <= p < q + WORD
    ensures (p % WORD - q % WORD) % WORD == p - q
  {
    var a, b := p / WORD, q / WORD;
    assert p == WORD * a + p % WORD && q == WORD * b + q % WORD;
    assert p % WORD - q % WORD == WORD * (b - a) + (p - q);
    Wraps(b - a, p - q);
  }

  lemma Wraps(m: int, v: int)
    requires 0 <= v < WORD
    ensures (WORD * m + v) % WORD == v
  {
  }

  lemma WordSum(p: nat, n: nat)
    ensures (p % WORD + n) % WORD == (p + n) % WORD
  {
    var a := p / WORD;
    var s, r := (p % WORD + n) / WORD, (p % WORD + n) % WORD;
    assert p + n == WORD * (a + s) + r;
    Wraps(a + s, r);
  }

  /** When the block is no longer than the history the ring still holds all of it. */
  lemma BlockInRing(dict: seq<byte>, input: seq<byte>, pos: nat, lookaheadPos: nat, lookaheadSize: nat, dictSize: nat,
                    start: nat, n: nat, dictPos: nat)
    requires Lookahead(dict, input, pos, lookaheadPos, lookaheadSize, dictSize)
    requires start <= n <= pos && pos - start <= dictSize && dictPos == start % WORD
    ensures n - start <= 32768 && RingHolds(dict, dictPos, input[start..n])
  {
    forall i | 0 <= i < n - start ensures dict[(dictPos + i) % 32768] == input[start..n][i] {
      RingPlace(start, i);
      assert InRing(dict, input, start + i);
    }
  }

  lemma WaitingMore(input: seq<byte>, pos: nat, len: nat, dist: nat, lit: byte, more: seq<byte>)
    requires Waiting(input, pos, len, dist, lit)
    ensures Waiting(input + more, pos, len, dist, lit)
  {
  }

  lemma NextPlace(n: nat)
    ensures (n % DICT_SIZE + 1) % DICT_SIZE == (n + 1) % DICT_SIZE
  {
    ModAdd(n / DICT_SIZE, n % DICT_SIZE + 1);
  }

  /** The ring's place of the byte after the lookahead. */
  lemma RingPlace(pos: nat, size: nat)
    ensures (pos % WORD + size) % DICT_SIZE == (pos + size) % DICT_SIZE
  {
    ModAdd(131072 * (pos / WORD), pos % WORD + size);
  }
}
