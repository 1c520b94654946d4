/** Writing a block: with codes built for it, with the fixed codes, or stored, falling back from one to another. */
module BlockWriter {
  import opened Bits
  import opened CanonicalCode
  import opened Deflate
  import opened DeflateEncoding
  import opened BitWriter
  import opened TokenBuffer
  import opened BlockBody
  import opened BlockSize
  import opened BlockHeaders
  import opened BlockDecoding
  import opened OlderHistory

  const OUT_BUF_SIZE := 85196
  const OUT_BUF_END := 85180

  // ----- blocks always fit -----

  ghost predicate StaticSendable(ts: seq<Token>) {
    AllSendable(StaticLit(), StaticDist(), ts)
  }

  lemma StaticSends(ts: seq<Token>)
    requires AllPackable(ts)
    ensures StaticSendable(ts) && Used(StaticLit(), 256)
  {
    StaticSizes(StaticLit(), StaticDist());
    hide StaticLit, StaticDist, LenSym, DistSym;
    forall i | 0 <= i < |ts| ensures Sendable(StaticLit(), StaticDist(), ts[i]) {
      LitSymSmall(ts[i]);
    }
  }

  /** A literal takes at most 9 bits, a match at most 31. */
  lemma StaticTokenSize(t: Token)
    requires Packable(t) && Sendable(StaticLit(), StaticDist(), t)
    ensures 3 * |TokenBits(StaticLit(), StaticDist(), t)| <= 31 * |Payload(t)|
  {
    StaticSizes(StaticLit(), StaticDist());
    StaticLitAt();
    if t.Match? {
      LenTables(t.len - 3);
      DistTables(t.dist - 1);
    }
    hide StaticLit, StaticDist, LenSym, DistSym, LenExtra, DistExtra, CodeBits, NatBits;
  }

  lemma {:induction false} StaticSize(ts: seq<Token>)
    requires AllPackable(ts) && StaticSendable(ts)
    ensures 3 * |TokensBits(StaticLit(), StaticDist(), ts)| <= 31 * |Payloads(ts)|
  {
    hide TokenBits, StaticLit, StaticDist, Payload;
    if ts != [] {
      TokensBitsFirst(StaticLit(), StaticDist(), ts);
      StaticTokenSize(ts[0]);
      StaticSize(ts[1..]);
    }
  }

  /** Any token buffer, sent with the fixed codes, needs at most 677214 bits from the block type on. */
  lemma StaticFits(ts: seq<Token>)
    requires AllPackable(ts) && |Pack(ts)| <= BUF_SIZE
    ensures StaticSendable(ts) && Used(StaticLit(), 256)
    ensures 2 + |BodyBits(StaticLit(), StaticDist(), ts)| <= 677214
  {
    StaticSends(ts);
    StaticSize(ts);
    PackSize(ts);
    StaticSizes(StaticLit(), StaticDist());
    hide StaticLit, StaticDist, TokensBits, CodeBits, Pack, Payloads;
  }

  /** So does any token buffer sent with the codes built for it. */
  lemma DynamicFits(ts: seq<Token>, ll: seq<nat>, d: seq<nat>, h: seq<bool>)
    requires AllPackable(ts) && |Pack(ts)| <= BUF_SIZE && DynamicOpening(ts, ll, d, h) && FitCodes(ts, ll, d)
    ensures AllSendable(ll, d, ts) && Used(ll, 256) && |h| + |BodyBits(ll, d, ts)| <= 677214
  {
    hide Pack, Feasible, OpensWith, FitCodes, BodyBits;
    OpeningSmall(ll, d, h);
    BodySmall(ts, ll, d);
  }

  // ----- how a block is sent -----

  /** The tokens as a block after the bits `before`: with the fixed codes, or with codes built for them. */
  ghost predicate PackedAs(ts: seq<Token>, fixed: bool, before: seq<bool>, bits: seq<bool>) {
    if fixed then
      && StaticSendable(ts) && Used(StaticLit(), 256)
      && bits == before + NatBits(1, 2) + BodyBits(StaticLit(), StaticDist(), ts)
    else
      exists ll, d, h :: DynamicOpening(ts, ll, d, h) && FitCodes(ts, ll, d) && bits == before + h + BodyBits(ll, d, ts)
  }

  /** No block needs more than that from its type on. */
  ghost predicate Within(before: seq<bool>, bits: seq<bool>) {
    |bits| <= |before| + 677214
  }

  /** So the output buffer, with at most three bytes in it, has room for any. */
  lemma NeverFull(before: seq<bool>, bits: seq<bool>, flushed: nat)
    requires Within(before, bits) && |before| <= 8 * flushed + 24
    ensures !Overflows(bits, flushed, OUT_BUF_END)
  {
  }

  /** The bytes themselves are sent when that is asked for, or when the packed block is no shorter by two bytes. */
  predicate GoesRaw(forceRaw: bool, rawFits: bool, total: nat, before: nat, packed: nat) {
    rawFits && (forceRaw || 0 < total <= packed / 8 - before / 8 + 1)
  }

  /** A block of the tokens, which stand for the bytes `block`; packed is what is tried unless all are to be raw. */
  ghost predicate BlockSent(flags: CompFlags, rawFits: bool, ts: seq<Token>, block: seq<byte>, before: seq<bool>,
                            packed: seq<bool>, bits: seq<bool>) {
    && (rawFits ==> |block| <= 65535)
    && ((flags.forceRaw && rawFits) || PackedAs(ts, flags.forceStatic || |block| < 48, before, packed))
    && bits == if GoesRaw(flags.forceRaw, rawFits, |block|, |before|, |packed|)
               then before + StoredBits(|before|, block) else packed
  }

  /**
   If the stored block can be sent, it is, or what is sent is shorter by 43 bits or more, or stands for nothing. What is
   sent is at most 56 bits longer than the packed block, unless raw blocks are asked for.
   */
  lemma ShorterSent(flags: CompFlags, rawFits: bool, ts: seq<Token>, block: seq<byte>, before: seq<bool>,
                    packed: seq<bool>, bits: seq<bool>)
    requires BlockSent(flags, rawFits, ts, block, before, packed, bits) && TotalLength(ts) == |block|
    ensures !(flags.forceRaw && rawFits) ==> |bits| <= |packed| + 56
    ensures rawFits ==>
      var stored := before + StoredBits(|before|, block);
      bits == stored || |bits| + 43 <= |stored| || (block == [] && |bits| <= |stored|)
  {
    if rawFits {
      StoredSize(|before|, block);
    }
    if block == [] && !flags.forceRaw {
      NothingPacked(ts, before, packed);
    }
    hide StoredBits, PackedAs;
  }

  lemma NothingPacked(ts: seq<Token>, before: seq<bool>, bits: seq<bool>)
    requires TotalLength(ts) == 0 && PackedAs(ts, true, before, bits)
    ensures |bits| <= |before| + 11
  {
    hide StaticLit, StaticDist;
    assert ts == [] || TotalLength(ts) > 0;
    StaticSizes(StaticLit(), StaticDist());
    KindLong(1);
    hide StaticLit, StaticDist, NatBits;
  }

  // ----- headers and trailers -----

  datatype Flush = NoFlush | SyncFlush | FullFlush | Finish

  /** The level bits of a zlib header for a number of probes. */
  function Level(probes: nat): (l: nat)
    ensures l <= 3
  {
    if probes <= 1 then 0
    else if probes == 6 || probes == 32 || probes == 16 then 1
    else if probes == 128 then 2
    else 3
  }

  /** The second byte of the zlib header. */
  function ZlibFlags(probes: nat): (flg: byte)
    ensures (0x78 * 256 + flg) % 31 == 0 && flg / 32 % 2 == 0
  {
    var header := 0x7800 + 64 * Level(probes);
    (header + 31 - header % 31) % 256
  }

  /** The four headers, 7801, 785E, 789C and 78DA, from the fastest level to the best. */
  lemma FlagsAre(probes: nat)
    ensures ZlibFlags(probes) == if probes <= 1 then 0x01 else if probes in {6, 16, 32} then 0x5E
                                 else if probes == 128 then 0x9C else 0xDA
  {
    assert Level(probes) in {0, 1, 2, 3};
  }

  /** The zlib header of RFC 1950 section 2.2. */
  function ZlibHeader(probes: nat): seq<bool> {
    ByteBits([0x78, ZlibFlags(probes)])
  }

  /** The Adler-32 checksum as it is sent, most significant byte first. */
  function AdlerBytes(a: nat): seq<byte>
    requires a < 0x1_0000_0000
  {
    var b := a / 256;
    var c := b / 256;
    [c / 256, c % 256, b % 256, a % 256]
  }

  /** What follows the final block. */
  function Trailer(n: nat, zlib: bool, adler: nat): seq<bool>
    requires adler < 0x1_0000_0000
  {
    Padding(n) + if zlib then ByteBits(AdlerBytes(adler)) else []
  }

  lemma ByteBitsTwo(a: byte, b: byte)
    ensures ByteBits([a, b]) == NatBits(a, 8) + NatBits(b, 8)
  {
    hide ByteBits, NatBits;
    ByteBitsAppend([a], [b]);
    ByteBitsOne(a);
    ByteBitsOne(b);
    assert [a] + [b] == [a, b];
  }

  lemma ByteFits(b: byte)
    ensures b < Pow2(8)
  {
    Pow2Values();
  }

  /** Sends one byte. */
  method PutByte(w: BitWriter, b: byte)
    requires w.Valid()
    modifies w, w.out
    ensures w.Valid() && w.bits == old(w.bits) + NatBits(b, 8) && w.flushed == old(w.flushed)
  {
    hide NatBits, Held;
    ByteFits(b);
    w.PutBits(b, 8);
  }

  /** Fills up the current byte with zeros. */
  method Align(w: BitWriter)
    requires w.Valid()
    modifies w, w.out
    ensures w.Valid() && w.bits == old(w.bits) + Padding(|old(w.bits)|) && w.flushed == old(w.flushed)
  {
    hide NatBits, Held;
    w.WholeBytes();
    if w.bitsIn != 0 {
      ZeroFits(8 - w.bitsIn);
      w.PutBits(0, 8 - w.bitsIn);
    } else {
      assert w.bits + Padding(|w.bits|) == w.bits;
    }
  }

  lemma ZeroFits(n: nat)
    ensures 0 < Pow2(n)
  {
    Pow2Monotone(0, n);
  }

  /** Byte k, or 0 past the end. */
  function ByteOr0(s: seq<byte>, k: nat): byte {
    if k < |s| then s[k] else 0
  }

  /** The 32-bit number whose bytes are s[i], s[i + 1] and so on. */
  function Word(s: seq<byte>, i: nat): (r: nat)
    ensures r < 0x1_0000_0000
  {
    0x100_0000 * ByteOr0(s, i) + 0x1_0000 * ByteOr0(s, i + 1) + 256 * ByteOr0(s, i + 2) + ByteOr0(s, i + 3)
  }

  lemma WordOfAdler(a: nat)
    requires a < 0x1_0000_0000
    ensures Word(AdlerBytes(a), 0) == a
  {
    var b := a / 256;
    var c := b / 256;
    assert a == 256 * b + a % 256 && b == 256 * c + b % 256 && c == 256 * (c / 256) + c % 256;
  }

  /** Shifting a word left by a byte. */
  lemma WordShift(s: seq<byte>, i: nat)
    requires i < 4 == |s|
    ensures Word(s, i) / 0x100_0000 == s[i] && Word(s, i) * 256 % 0x1_0000_0000 == Word(s, i + 1)
  {
    var low := 0x1_0000 * ByteOr0(s, i + 1) + 256 * ByteOr0(s, i + 2) + ByteOr0(s, i + 3);
    assert Word(s, i) == 0x100_0000 * s[i] + low && 0 <= low < 0x100_0000;
    assert Word(s, i + 1) == 256 * low;
  }

  /** Sends the checksum. */
  method PutAdler(w: BitWriter, adler: nat)
    requires w.Valid() && adler < 0x1_0000_0000
    modifies w, w.out
    ensures w.Valid() && w.bits == old(w.bits) + ByteBits(AdlerBytes(adler)) && w.flushed == old(w.flushed)
  {
    ghost var s := AdlerBytes(adler);
    WordOfAdler(adler);
    hide *;
    ghost var start := w.bits;
    var a := adler;
    BytesSent(start, s);
    for i := 0 to 4
      invariant w.Valid() && w.flushed == old(w.flushed) && a == Word(s, i)
      invariant w.bits == start + ByteBits(s[..i])
    {
      WordShift(s, i);
      NextByte(start, s, i);
      PutByte(w, a / 0x100_0000);
      a := a * 256 % 0x1_0000_0000;
    }
    assert s[..4] == s;
  }

  lemma BytesSent(start: seq<bool>, s: seq<byte>)
    ensures start + ByteBits(s[..0]) == start
  {
  }

  lemma NextByte(start: seq<bool>, s: seq<byte>, i: nat)
    requires i < |s|
    ensures start + ByteBits(s[..i]) + NatBits(s[i], 8) == start + ByteBits(s[..i + 1])
  {
    hide NatBits, ByteBits;
    assert s[..i + 1] == s[..i] + [s[i]];
    ByteBitsAppend(s[..i], [s[i]]);
    ByteBitsOne(s[i]);
  }

  // ----- writing blocks -----

  /** The flags of a compressor, and the number of probes its low 12 bits give. */
  datatype CompFlags = CompFlags(probes: nat, zlib: bool, adler: bool, greedy: bool, rle: bool, filter: bool,
                                 forceStatic: bool, forceRaw: bool)

  /** Where compressed bytes go. Whether a delivery is refused is not up to the compressor. */
  class Sink {
    var received: seq<byte>
    var refused: bool

    constructor ()
      ensures received == [] && !refused
    {
      received, refused := [], false;
    }

    method Put(buf: array<byte>, n: nat) returns (ok: bool)
      requires n <= buf.Length
      modifies this
      ensures received == old(received) + buf[..n]
      ensures if ok then refused == old(refused) else refused
    {
      received := received + buf[..n];
      ok := *;
      refused := refused || !ok;
    }
  }

  /** Tokens as the block writer reads them. */
  ghost predicate ClosedTokens(bytes: seq<byte>, ts: seq<Token>) {
    AllPackable(ts) && bytes == Pack(ts)
  }

  lemma ClosedSizes(bytes: seq<byte>, ts: seq<Token>)
    requires ClosedTokens(bytes, ts) && |bytes| <= BUF_SIZE
    ensures AllPackable(ts) && bytes == Pack(ts) && 9 * |ts| <= 8 * BUF_SIZE
    ensures AllSendable(StaticLit(), StaticDist(), ts) && Used(StaticLit(), 256)
    ensures 2 + |BodyBits(StaticLit(), StaticDist(), ts)| <= 677214
  {
    hide Pack;
    PackGrows(ts);
    StaticFits(ts);
  }

  lemma BlockExtends(before: seq<bool>, after: seq<bool>, out: seq<byte>, out': seq<byte>)
    requires BlockIs(before, after, out, out')
    ensures before <= after
  {
  }

  /** The n bytes of the ring from position pos on. */
  ghost predicate RingHolds(dict: seq<byte>, pos: nat, block: seq<byte>) {
    |dict| >= 32768 && forall i :: 0 <= i < |block| ==> dict[(pos + i) % 32768] == block[i]
  }

  class BlockWriter {
    const w: BitWriter
    const t: TokenBuffer
    const lit: HuffTable
    const dist: HuffTable
    const cl: HuffTable
    const clCounts: array<nat>
    const flags: CompFlags
    var blockIndex: nat
    ghost var plain: seq<byte>
    /** How much of it no later match reaches back to, and what of the stream was sent by then. */
    ghost var base: nat
    ghost var start: seq<bool>

    ghost predicate Separate() {
      ClTables(t, w, lit, dist, cl, clCounts) && t.buf.Length == BUF_SIZE && w.end == OUT_BUF_END
    }

    /** Everything a block writer changes. */
    ghost function Repr(): set<object> {
      {this, w, w.out, t, t.buf, t.litCounts, t.distCounts, clCounts,
       lit.sizes, lit.codes, dist.sizes, dist.codes, cl.sizes, cl.codes}
    }

    constructor (flags: CompFlags)
      ensures Separate() && this.flags == flags && blockIndex == 0 && plain == [] && fresh(Repr())
      ensures base == 0 && start == Header()
      ensures w.Valid() && w.Intact() && w.bits == [] && w.flushed == 0 && t.Valid() && t.tokens == [] && t.codePos == 1
    {
      hide BitWriter.Valid, TokenBuffer.Valid, BitWriter.Intact, ZlibHeader;
      var writer := new BitWriter(OUT_BUF_SIZE, OUT_BUF_END);
      var tokens := new TokenBuffer();
      var lits := new HuffTable();
      var dists := new HuffTable();
      var cls := new HuffTable();
      var counts := new nat[288](_ => 0);
      this.flags := flags;
      blockIndex, plain, base := 0, [], 0;
      w, t, lit, dist, cl := writer, tokens, lits, dists, cls;
      clCounts := counts;
      new;
      start := Header();
    }

    /** Sends the tokens as a block with the fixed codes. */
    method StaticBlock() returns (ok: bool)
      requires Separate() && w.Valid() && t.codePos <= t.buf.Length && ClosedTokens(t.buf[..t.codePos], t.tokens)
      requires base <= |plain| && TokensOk(t.tokens, |plain[base..]|)
      modifies w, w.out, lit.sizes, lit.codes, dist.sizes, dist.codes
      ensures w.Valid() && w.flushed == old(w.flushed)
      ensures BlockIs(old(w.bits), w.bits, plain[base..], Expand(plain[base..], t.tokens)) 
      ensures Within(old(w.bits), w.bits)
      ensures PackedAs(t.tokens, true, old(w.bits), w.bits)
      ensures ok <==> w.outPos < w.end
    {
      hide ClosedTokens, TokensOk, Expand, BitWriter.Valid, HuffTable.Holds, BlockIs, StaticLit, StaticDist, BodyBits;
      hide AllSendable, Pack;
      ghost var before, ts, out := w.bits, t.tokens, plain[base..];
      ClosedSizes(t.buf[..t.codePos], ts);
      StartStaticBlock(t, w, lit, dist);
      KindLong(1);
      ok := CompressLzCodes(t, w, lit, dist, StaticLit(), StaticDist());
      StaticBlockIs(before, ts, out);
    }

    /** Sends the tokens as a block with codes built for them. */
    method DynamicBlock() returns (ok: bool)
      requires Separate() && w.Valid() && t.codePos <= t.buf.Length && ClosedTokens(t.buf[..t.codePos], t.tokens)
      requires base <= |plain| && TokensOk(t.tokens, |plain[base..]|)
      requires Counted(t.tokens, t.litCounts[..], t.distCounts[..])
      modifies w, w.out, t.litCounts, lit.sizes, lit.codes, dist.sizes, dist.codes, cl.sizes, cl.codes, clCounts
      ensures w.Valid() && w.flushed == old(w.flushed)
      ensures BlockIs(old(w.bits), w.bits, plain[base..], Expand(plain[base..], t.tokens)) 
      ensures Within(old(w.bits), w.bits)
      ensures PackedAs(t.tokens, false, old(w.bits), w.bits)
      ensures ok <==> w.outPos < w.end
    {
      hide ClosedTokens, TokensOk, Expand, BitWriter.Valid, HuffTable.Holds, BlockIs, StaticLit, StaticDist, BodyBits;
      hide AllSendable, Pack, DynamicOpening, Counted, FitCodes;
      ghost var before, ts, out := w.bits, t.tokens, plain[base..];
      ClosedSizes(t.buf[..t.codePos], ts);
      ghost var ll, d, h := StartDynamicBlock(t, w, lit, dist, cl, clCounts);
      DynamicFits(ts, ll, d, h);
      ok := CompressLzCodes(t, w, lit, dist, ll, d);
      DynamicBlockIs(before, ll, d, h, ts, out);
    }

    /** Sends the tokens as a block with the fixed codes, if they are asked for or the block is short, or its own. */
    method PackedBlock(ghost block: seq<byte>) returns (ok: bool)
      requires Separate() && w.Valid() && t.codePos <= t.buf.Length && ClosedTokens(t.buf[..t.codePos], t.tokens)
      requires base <= |plain| && TokensOk(t.tokens, |plain[base..]|)
      requires Counted(t.tokens, t.litCounts[..], t.distCounts[..])
      requires Expand(plain[base..], t.tokens) == plain[base..] + block && |block| == t.totalBytes
      modifies w, w.out, t.litCounts, lit.sizes, lit.codes, dist.sizes, dist.codes, cl.sizes, cl.codes, clCounts
      ensures w.Valid() && w.flushed == old(w.flushed) && old(w.bits) <= w.bits
      ensures BlockIs(old(w.bits), w.bits, plain[base..], plain[base..] + block) && Within(old(w.bits), w.bits)
      ensures PackedAs(t.tokens, flags.forceStatic || |block| < 48, old(w.bits), w.bits)
      ensures ok <==> w.outPos < w.end
    {
      hide ClosedTokens, TokensOk, Expand, BitWriter.Valid, BlockIs, Counted, PackedAs, Within;
      ghost var before, out := w.bits, plain[base..];
      if flags.forceStatic || t.totalBytes < 48 {
        ok := StaticBlock();
      } else {
        ok := DynamicBlock();
      }
      BlockExtends(before, w.bits, out, out + block);
    }

    /** Sends the ring's bytes as a stored block. */
    method StoredBlock(dict: array<byte>, dictPos: nat, ghost block: seq<byte>)
      requires w.Valid() && dict != w.out && RingHolds(dict[..], dictPos, block) && |block| == t.totalBytes <= 65535
      requires w as object != t
      modifies w, w.out
      ensures w.Valid() && w.flushed == old(w.flushed) && w.bits == old(w.bits) + StoredBits(|old(w.bits)|, block)
    {
      hide *;
      ghost var start := w.bits;
      var n := t.totalBytes;
      StoredFits(n);
      RingBytes(dict[..], dictPos, block);
      KindLong(0);
      w.PutBits(0, 2);
      Align(w);
      w.PutBits(n, 16);
      w.PutBits(65535 - n, 16);
      PutRing(dict, dictPos, n, block);
      StoredSent(start, block);
    }

    method PutRing(dict: array<byte>, dictPos: nat, n: nat, ghost block: seq<byte>)
      requires w.Valid() && dict != w.out && |block| == n && dict.Length >= 32768
      requires forall i :: 0 <= i < n ==> dict[(dictPos + i) % 32768] == block[i]
      modifies w, w.out
      ensures w.Valid() && w.flushed == old(w.flushed) && w.bits == old(w.bits) + ByteBits(block)
    {
      hide *;
      ghost var start := w.bits;
      BytesSent(start, block);
      for i := 0 to n
        invariant w.Valid() && w.flushed == old(w.flushed) && w.bits == start + ByteBits(block[..i])
      {
        NextByte(start, block, i);
        PutByte(w, dict[(dictPos + i) % 32768]);
      }
      assert block[..n] == block;
    }

    /** Sends the tokens as a block, choosing how. */
    method SendBlock(dict: array<byte>, dictPos: nat, rawFits: bool, ghost block: seq<byte>)
      returns (ghost packed: seq<bool>)
      requires Separate() && w.Valid() && t.codePos <= t.buf.Length && ClosedTokens(t.buf[..t.codePos], t.tokens)
      requires base <= |plain| && TokensOk(t.tokens, |plain[base..]|)
      requires Counted(t.tokens, t.litCounts[..], t.distCounts[..])
      requires |w.bits| <= 8 * w.flushed + 24 && Expand(plain[base..], t.tokens) == plain[base..] + block
      requires |block| == t.totalBytes
      requires dict !in Repr() && (rawFits ==> RingHolds(dict[..], dictPos, block) && t.totalBytes <= 32768)
      modifies w, w.out, t.litCounts, lit.sizes, lit.codes, dist.sizes, dist.codes, cl.sizes, cl.codes, clCounts
      ensures w.Valid() && w.flushed == old(w.flushed) && w.outPos < w.end
      ensures BlockIs(old(w.bits), w.bits, plain[base..], plain[base..] + block)
      ensures Within(old(w.bits), w.bits)
      ensures BlockSent(flags, rawFits, t.tokens, block, old(w.bits), packed, w.bits)
    {
      hide ClosedTokens, TokensOk, Expand, BitWriter.Valid, BlockIs, Counted, RingHolds, Snapshot, StoredBits, PackedAs;
      hide Within, Overflows, BlockWriter.Decodes;
      ghost var before, out, flushed := w.bits, plain[base..], w.flushed;
      w.WholeBytes();
      var pos, buf, count := w.outPos, w.bitBuf, w.bitsIn;
      var useRaw := flags.forceRaw && rawFits;
      var ok := false;
      if !useRaw {
        ok := PackedBlock(block);
      }
      packed := w.bits;
      if (useRaw || (t.totalBytes > 0 && w.outPos - pos + 1 >= t.totalBytes)) && rawFits {
        if !useRaw {
          w.FillsUp();
          NeverFull(before, packed, flushed);
          w.WholeBytes();
        }
        w.Rewind(pos, buf, count, before);
        StoredBlock(dict, dictPos, block);
        StoredBlockIs(before, block, out);
        StoredWithin(before, block);
      } else if !ok {
        w.FillsUp();
        w.Rewind(pos, buf, count, before);
        ok := StaticBlock();
        NeverFull(before, packed, flushed);
      } else {
        w.WholeBytes();
      }
      w.FillsUp();
      NeverFull(before, w.bits, flushed);
    }

    ghost function Header(): seq<bool> {
      if flags.zlib then ZlibHeader(flags.probes) else []
    }

    /** The blocks so far decode to `plain`, and those since the start to what they add, without what was before. */
    ghost predicate StreamOk()
      reads `blockIndex, `plain, `base, `start, w`bits
    {
      if blockIndex == 0 then w.bits == [] && plain == [] && base == 0 && start == Header()
      else base <= |plain| && Decodes(w.bits, plain, plain[base..])
    }

    /** The stream decodes to `all`, and from the start on, with nothing before, to `since`. */
    ghost predicate Decodes(bits: seq<bool>, all: seq<byte>, since: seq<byte>)
      reads `start
    {
      Continues(Header(), bits, [], all) && Continues(start, bits, [], since)
    }

    /** So it does, up to its end; then come zeros up to a byte boundary and the checksum. */
    ghost predicate Completes(bits: seq<bool>, all: seq<byte>, since: seq<byte>, adler: nat)
      requires adler < 0x1_0000_0000
      reads `start
    {
      exists e :: Ends(Header(), e, [], all) && Ends(start, e, [], since) && bits == e + Trailer(|e|, flags.zlib, adler)
    }

    /** With the block that was just sent. */
    ghost predicate WithBlock(flush: Flush, adler: nat, block: seq<byte>)
      requires adler < 0x1_0000_0000
      reads `plain, `base, `start, w`bits
    {
      && base <= |plain|
      && if flush.Finish? then Completes(w.bits, plain + block, plain[base..] + block, adler)
         else Decodes(w.bits, plain + block, plain[base..] + block)
    }

    /** The stream is complete. */
    ghost predicate Finished(adler: nat)
      requires adler < 0x1_0000_0000
      reads `blockIndex, `plain, `base, `start, w`bits
    {
      base <= |plain| && Completes(w.bits, plain, plain[base..], adler)
    }

    /** All whole bytes of the stream have been delivered. */
    ghost predicate Ready(sink: Sink)
      reads this, w, w.out, t, t.buf, t.litCounts, t.distCounts, sink
    {
      && Separate() && w.Valid() && w.Intact() && w.outPos == 0 && t.Valid()
      && Delivered(sink.received, w.bits, w.flushed)
    }

    /** Nothing sent so far will be referred to. */
    ghost method Restart(sink: Sink)
      requires Ready(sink) && StreamOk() && blockIndex > 0
      modifies `base, `start
      ensures Ready(sink) && StreamOk() && base == |plain| && start == w.bits
    {
      hide Continues, BitWriter.Valid, BitWriter.Intact, TokenBuffer.Valid, Delivered, ZlibHeader;
      base, start := |plain|, w.bits;
      assert plain[base..] == [];
      ContinuesSelf(start, []);
    }

    /** Sends the stream's header before the first block, and the final bit. */
    method PutStart(final: bool) returns (ghost b: seq<bool>)
      requires w.Valid() && w.Intact() && w.outPos == 0 && StreamOk()
      modifies w, w.out
      ensures w.Valid() && w.flushed == old(w.flushed) && |w.bits| <= 8 * w.flushed + 24
      ensures w.bits == b + [final] && base <= |plain| && Decodes(b, plain, plain[base..]) && old(w.bits) <= b
      ensures b == if blockIndex == 0 then Header() else old(w.bits)
    {
      StreamStarts();
      w.WholeBytes();
      hide Continues, BitWriter.Valid, NatBits, Pow2, ZlibHeader, ZlibFlags, StreamOk, BlockWriter.Decodes;
      if flags.zlib && blockIndex == 0 {
        ZlibHeaderSent(flags.probes);
        PutByte(w, 0x78);
        PutByte(w, ZlibFlags(flags.probes));
      }
      OneFits();
      OneBit(final);
      b := w.bits;
      w.PutBits(if final then 1 else 0, 1);
    }

    /** Before the first block nothing has been sent; afterwards the stream's header has. */
    lemma StreamStarts()
      requires StreamOk()
      ensures base <= |plain|
      ensures blockIndex == 0 ==> w.bits == [] && Decodes(Header(), plain, plain[base..])
      ensures blockIndex > 0 ==> Decodes(w.bits, plain, plain[base..])
    {
      hide Continues, ZlibHeader;
      ContinuesSelf(Header(), []);
    }

    /** Sends what a flush adds: an empty stored block, or after the final block the checksum. */
    method PutFlush(flush: Flush, adler: nat)
      requires w.Valid() && adler < 0x1_0000_0000
      modifies w, w.out
      ensures w.Valid() && w.flushed == old(w.flushed)
      ensures FlushSent(flush, flags.zlib, adler, old(w.bits), w.bits)
    {
      hide NatBits, Held, ByteBits, Pow2, Padding, AdlerBytes;
      ghost var start := w.bits;
      match flush
      case NoFlush =>
      case Finish =>
        Align(w);
        if flags.zlib {
          PutAdler(w, adler);
          Associate(start, Padding(|start|), ByteBits(AdlerBytes(adler)));
        } else {
          assert Padding(|start|) + [] == Padding(|start|);
        }
      case _ =>
        ZeroFits(3);
        w.PutBits(0, 3);
        ThreeZeros();
        Align(w);
        StoredFits(0);
        w.PutBits(0, 16);
        w.PutBits(65535, 16);
        SyncSent(start);
    }

    /** The bytes put since the last delivery are delivered. */
    method Deliver(sink: Sink) returns (ok: bool)
      requires w.Valid() && w.Intact() && Delivered(sink.received, w.bits, w.flushed)
      modifies w`outPos, w`flushed, sink
      ensures w.Valid() && w.Intact() && w.outPos == 0 && w.bits == old(w.bits)
      ensures Delivered(sink.received, w.bits, w.flushed)
      ensures if ok then sink.refused == old(sink.refused) else sink.refused
    {
      hide Held, BytesAt;
      OutBounds();
      ok := true;
      var n := w.outPos;
      ghost var sent := w.out[..n];
      if n != 0 {
        ok := sink.Put(w.out, n);
      }
      w.Restart();
      assert sink.received == old(sink.received) + sent;
      DeliveredMore(old(sink.received), w.bits, old(w.flushed), sent);
    }

    lemma OutBounds()
      requires w.Valid()
      ensures w.outPos <= w.out.Length
    {
    }

    /** The block stands for the same with all of the output before it. */
    lemma Whole(before: seq<bool>, after: seq<bool>, block: seq<byte>)
      requires base <= |plain| && BlockIs(before, after, plain[base..], plain[base..] + block)
      ensures BlockIs(before, after, plain, plain + block)
    {
      hide BlockIs;
      BlockIsMore(plain[..base], before, after, plain[base..], plain[base..] + block);
      assert plain[..base] + plain[base..] == plain;
      assert plain[..base] + (plain[base..] + block) == plain + block;
    }

    /** The stream goes on with the block, or ends with it. */
    lemma Follows(b: seq<bool>, e: seq<bool>, final: bool, block: seq<byte>)
      requires base <= |plain| && Decodes(b, plain, plain[base..])
      requires BlockIs(b + [final], e, plain[base..], plain[base..] + block)
      ensures b + [final] <= e
      ensures !final ==> Decodes(e, plain + block, plain[base..] + block)
      ensures final ==> Ends(Header(), e, [], plain + block) && Ends(start, e, [], plain[base..] + block)
    {
      hide Continues, Ends, BlockIs, ZlibHeader;
      var out := plain[base..];
      BlockExtends(b + [final], e, out, out + block);
      Whole(b + [final], e, block);
      BlockInStream(b, final, e, plain, plain + block);
      BlockInStream(b, final, e, out, out + block);
      ContinuesTrans(Header(), b, e, [], plain, plain + block);
      ContinuesTrans(start, b, e, [], out, out + block);
    }

    /** After the block comes what the flush adds. */
    lemma Flushed(flush: Flush, adler: nat, e: seq<bool>, bits: seq<bool>, block: seq<byte>)
      requires base <= |plain| && adler < 0x1_0000_0000 && FlushSent(flush, flags.zlib, adler, e, bits)
      requires !flush.Finish? ==> Decodes(e, plain + block, plain[base..] + block)
      requires flush.Finish? ==> Ends(Header(), e, [], plain + block) && Ends(start, e, [], plain[base..] + block)
      ensures e <= bits && (!flush.NoFlush? ==> |bits| % 8 == 0)
      ensures if flush.Finish? then Completes(bits, plain + block, plain[base..] + block, adler)
        else Decodes(bits, plain + block, plain[base..] + block)
    {
      hide Continues, Ends, ZlibHeader, Trailer, FlushSent;
      AfterFlush(Header(), flush, flags.zlib, adler, e, bits, plain + block);
      AfterFlush(start, flush, flags.zlib, adler, e, bits, plain[base..] + block);
    }

    /**
     Sends a block of the tokens, after the header if it is the first, and what the flush adds to it. The output buffer
     is not full after that.
     */
    method WriteBlock(flush: Flush, dict: array<byte>, dictPos: nat, rawFits: bool, adler: nat, ghost block: seq<byte>)
      returns (ghost begun: seq<bool>, ghost packed: seq<bool>, ghost sent: seq<bool>)
      requires Separate() && t.Valid() && w.Valid() && w.Intact() && w.outPos == 0 && StreamOk()
      requires adler < 0x1_0000_0000
      requires base <= |plain| && TokensOk(t.tokens, |plain[base..]|) && |block| == t.totalBytes
      requires Expand(plain[base..], t.tokens) == plain[base..] + block
      requires dict !in Repr() && (rawFits ==> RingHolds(dict[..], dictPos, block) && t.totalBytes <= 32768)
      modifies w, w.out, t, t.buf, t.litCounts, lit.sizes, lit.codes, dist.sizes, dist.codes, cl.sizes, cl.codes
      modifies clCounts
      ensures w.Valid() && w.flushed == old(w.flushed) && old(w.bits) <= w.bits
      ensures w.Intact() && w.outPos < w.end && (!flush.NoFlush? ==> |w.bits| % 8 == 0)
      ensures begun == (if blockIndex == 0 then Header() else old(w.bits)) + [flush.Finish?]
      ensures BlockSent(flags, rawFits, old(t.tokens), block, begun, packed, sent)
      ensures FlushSent(flush, flags.zlib, adler, sent, w.bits)
      ensures WithBlock(flush, adler, block)
    {
      hide Continues, Ends, BlockIs, BitWriter.Valid, TokensOk, Expand, RingHolds, Trailer, FlushSent, ClosedTokens;
      hide Counted, BlockWriter.Decodes, BlockWriter.Completes, BlockWriter.StreamOk, Pack, Layout, BlockSent;
      t.Close();
      assert ClosedTokens(t.buf[..t.codePos], t.tokens) by {
        Closing(t.buf[..t.codePos], t.tokens);
      }
      ghost var b := PutStart(flush.Finish?);
      begun := w.bits;
      packed := SendBlock(dict, dictPos, rawFits, block);
      sent := w.bits;
      Follows(b, sent, flush.Finish?, block);
      w.WholeBytes();
      PutFlush(flush, adler);
      Flushed(flush, adler, sent, w.bits, block);
      FlushShort(flush, flags.zlib, adler, sent, w.bits);
      w.WholeBytes();
      w.HasRoom();
      assert w.outPos < w.end;
    }

    /** The block is written: a new token list starts. */
    method NextBlock(flush: Flush, adler: nat, ghost block: seq<byte>)
      requires Separate() && adler < 0x1_0000_0000 && WithBlock(flush, adler, block)
      modifies `plain, `blockIndex, t, t.buf, t.litCounts, t.distCounts
      ensures t.Valid() && t.tokens == [] && t.codePos == 1 && t.totalBytes == 0
      ensures plain == old(plain) + block && blockIndex == old(blockIndex) + 1
      ensures if flush.Finish? then Finished(adler) else StreamOk()
    {
      hide TokenBuffer.Valid, BlockWriter.Decodes, BlockWriter.Completes;
      assert (plain + block)[base..] == plain[base..] + block;
      t.Reset();
      plain := plain + block;
      blockIndex := blockIndex + 1;
    }

    lemma Apart()
      requires Separate()
      ensures w.out != t.buf && w.out as object != t.litCounts && w.out as object != t.distCounts
    {
    }

    /**
     Writes the tokens as a block, starts a new token list, and delivers the bytes. Only the sink can make the delivery
     fail: the output buffer is never full, as the source asserts.
     */
    method FlushBlock(flush: Flush, dict: array<byte>, dictPos: nat, rawFits: bool, adler: nat, sink: Sink,
                      ghost block: seq<byte>)
      returns (ok: bool)
      requires Ready(sink) && StreamOk() && adler < 0x1_0000_0000
      requires base <= |plain| && TokensOk(t.tokens, |plain[base..]|) && |block| == t.totalBytes
      requires Expand(plain[base..], t.tokens) == plain[base..] + block
      requires dict !in Repr() && (rawFits ==> RingHolds(dict[..], dictPos, block) && t.totalBytes <= 32768)
      modifies Repr(), sink
      ensures Ready(sink) && t.tokens == [] && t.codePos == 1 && t.totalBytes == 0
      ensures plain == old(plain) + block && blockIndex == old(blockIndex) + 1
      ensures base == old(base) && start == old(start)
      ensures !flush.NoFlush? ==> |w.bits| % 8 == 0
      ensures if flush.Finish? then Finished(adler) else StreamOk()
      ensures if ok then sink.refused == old(sink.refused) else sink.refused
    {
      hide Continues, Ends, BitWriter.Valid, TokensOk, Expand, RingHolds, Trailer, ZlibHeader, Delivered, Layout;
      hide Counted, BlockWriter.Decodes, BlockWriter.Completes, BlockWriter.StreamOk, BlockWriter.Finished;
      hide TokenBuffer.Valid, BlockSent, FlushSent, BlockWriter.WithBlock, BlockWriter.Header;
      Apart();
      hide BlockWriter.Separate;
      ghost var begun, packed, sent := WriteBlock(flush, dict, dictPos, rawFits, adler, block);
      NextBlock(flush, adler, block);
      DeliveredGrows(sink.received, old(w.bits), w.bits, w.flushed);
      ok := Deliver(sink);
    }
  }

  lemma DeliveredGrows(received: seq<byte>, bits: seq<bool>, bits': seq<bool>, flushed: nat)
    requires Delivered(received, bits, flushed) && bits <= bits'
    ensures Delivered(received, bits', flushed)
  {
    hide ByteBits;
    BytesGrow(bits, bits'[|bits|..], 0, received);
    assert bits + bits'[|bits|..] == bits';
  }

  lemma Closing(bytes: seq<byte>, ts: seq<Token>)
    requires AllPackable(ts) && bytes == Pack(ts)
    ensures ClosedTokens(bytes, ts)
  {
  }

  lemma FlushAligns(flush: Flush, zlib: bool, adler: nat, e: seq<bool>, bits: seq<bool>)
    requires adler < 0x1_0000_0000 && FlushSent(flush, zlib, adler, e, bits)
    ensures !flush.NoFlush? ==> |bits| % 8 == 0
  {
    hide NatBits, Padding, AdlerBytes, Aligned;
    KindLong(0);
    match flush
    case NoFlush =>
    case Finish =>
      PaddingAligns(|e|);
      WholeBytesMore(Aligned(|e|), if zlib then |AdlerBytes(adler)| else 0);
    case _ =>
      PaddingAligns(|e| + 3);
      WholeBytesMore(Aligned(|e| + 3), 4);
  }

  lemma WholeBytesMore(n: nat, k: nat)
    requires n % 8 == 0
    ensures (n + 8 * k) % 8 == 0
  {
  }

  /** The stream after a flush. */
  lemma AfterFlush(header: seq<bool>, flush: Flush, zlib: bool, adler: nat, e: seq<bool>, bits: seq<bool>,
                   out: seq<byte>)
    requires adler < 0x1_0000_0000 && FlushSent(flush, zlib, adler, e, bits)
    requires !flush.Finish? ==> Continues(header, e, [], out)
    ensures e <= bits && (flush.NoFlush? ==> bits == e) && (!flush.NoFlush? ==> |bits| % 8 == 0)
    ensures !flush.Finish? ==> Continues(header, bits, [], out)
    ensures flush.Finish? ==> bits == e + Trailer(|e|, zlib, adler)
  {
    hide Continues, StoredBits, Trailer;
    FlushAligns(flush, zlib, adler, e, bits);
    if flush.SyncFlush? || flush.FullFlush? {
      StoredBlockIs(e + [false], [], out);
      assert out + [] == out;
      BlockInStream(e, false, bits, out, out);
      ContinuesTrans(header, e, bits, [], out, out);
    }
  }

  /** A flush adds less than six bytes. */
  lemma FlushShort(flush: Flush, zlib: bool, adler: nat, e: seq<bool>, bits: seq<bool>)
    requires adler < 0x1_0000_0000 && FlushSent(flush, zlib, adler, e, bits)
    ensures |bits| <= |e| + 42
  {
    hide NatBits;
    KindLong(0);
  }

  /** What a flush adds to the stream after the block. */
  ghost predicate FlushSent(flush: Flush, zlib: bool, adler: nat, bits: seq<bool>, bits': seq<bool>)
    requires adler < 0x1_0000_0000
  {
    match flush
    case NoFlush => bits' == bits
    case Finish => bits' == bits + Trailer(|bits|, zlib, adler)
    case _ => bits' == bits + [false] + StoredBits(|bits| + 1, [])
  }

  lemma ThreeZeros()
    ensures NatBits(0, 3) == [false] + NatBits(0, 2)
  {
  }

  lemma SyncSent(start: seq<bool>)
    ensures var b := start + ([false] + NatBits(0, 2));
      b + Padding(|b|) + NatBits(0, 16) + NatBits(65535, 16) == start + [false] + StoredBits(|start| + 1, [])
  {
    hide NatBits, Padding;
    StoredSent(start + [false], []);
    Associate(start, [false], NatBits(0, 2));
    var b := start + [false] + NatBits(0, 2);
    assert b + Padding(|b|) + NatBits(0, 16) + NatBits(65535, 16) + ByteBits([])
        == b + Padding(|b|) + NatBits(0, 16) + NatBits(65535, 16);
  }

  lemma DeliveredMore(received: seq<byte>, bits: seq<bool>, flushed: nat, sent: seq<byte>)
    requires Delivered(received, bits, flushed)
    ensures BytesAt(bits, 8 * flushed, sent) ==> Delivered(received + sent, bits, flushed + |sent|)
  {
    hide ByteBits, At;
    ByteBitsAppend(received, sent);
    AtAppend(bits, 0, ByteBits(received), ByteBits(sent));
  }

  lemma StoredFits(n: nat)
    requires n <= 65535
    ensures n < Pow2(16) && 65535 - n < Pow2(16) && 0 < Pow2(2)
  {
    Pow2Values();
  }

  lemma RingBytes(dict: seq<byte>, pos: nat, block: seq<byte>)
    requires RingHolds(dict, pos, block)
    ensures |dict| >= 32768 && forall i :: 0 <= i < |block| ==> dict[(pos + i) % 32768] == block[i]
  {
  }

  lemma StoredSent(start: seq<bool>, block: seq<byte>)
    requires |block| <= 65535
    ensures var b := start + NatBits(0, 2);
      b + Padding(|b|) + NatBits(|block|, 16) + NatBits(65535 - |block|, 16) + ByteBits(block)
        == start + StoredBits(|start|, block)
  {
    hide ByteBits, NatBits, Padding;
    KindLong(0);
    StoredParts(start, NatBits(0, 2), Padding(|start| + 2), NatBits(|block|, 16), NatBits(65535 - |block|, 16),
        ByteBits(block));
  }

  lemma StoredParts<T>(s: seq<T>, a: seq<T>, p: seq<T>, x: seq<T>, y: seq<T>, z: seq<T>)
    ensures s + a + p + x + y + z == s + (a + p + (x + y) + z)
  {
    assert s + a + p + x + y + z == s + a + p + (x + y) + z;
  }

  lemma StoredWithin(before: seq<bool>, block: seq<byte>)
    requires |block| <= 32768
    ensures Within(before, before + StoredBits(|before|, block))
  {
    StoredSize(|before|, block);
    hide StoredBits;
  }

  lemma StoredSize(n: nat, block: seq<byte>)
    requires |block| <= 65535
    ensures 34 + 8 * |block| <= |StoredBits(n, block)| <= 41 + 8 * |block|
  {
    hide ByteBits, NatBits;
    KindLong(0);
  }

  /** The bytes delivered are the stream's first `flushed` bytes. */
  ghost predicate Delivered(received: seq<byte>, bits: seq<bool>, flushed: nat) {
    |received| == flushed && BytesAt(bits, 0, received)
  }

  lemma ZlibHeaderSent(probes: nat)
    ensures [] + NatBits(0x78, 8) + NatBits(ZlibFlags(probes), 8) == ZlibHeader(probes)
    ensures |ZlibHeader(probes)| == 16
  {
    hide NatBits;
    ByteBitsTwo(0x78, ZlibFlags(probes));
    assert [] + NatBits(0x78, 8) == NatBits(0x78, 8);
  }

  lemma OneFits()
    ensures 0 < Pow2(1) && 1 < Pow2(1)
  {
  }

  lemma OneBit(b: bool)
    ensures NatBits(if b then 1 else 0, 1) == [b]
  {
    assert NatBits(0, 0) == [];
  }
}
