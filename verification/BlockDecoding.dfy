/** What a written block does to the format's decoder, whatever follows it in the stream. */
module BlockDecoding {
  import opened Bits
  import opened CanonicalCode
  import opened Deflate
  import opened DeflateEncoding
  import opened CodeLengthPacking
  import opened DynamicHeader
  import opened BlockHeaders

  /** Whole blocks, none of them final, lead from pos to end. */
  ghost predicate Passes(s: seq<bool>, pos: nat, out: seq<byte>, end: nat, out': seq<byte>)
    decreases |s| - pos
  {
    || (pos == end && out == out')
    || (pos + 3 <= |s| && !s[pos]
        && var r := Block(BitsNat(s[pos + 1..pos + 3]), s, pos + 3, out);
           r.Some? && Passes(s, r.value.pos, r.value.out, end, out'))
  }

  lemma {:induction false} PassesTrans(s: seq<bool>, a: nat, x: seq<byte>, b: nat, y: seq<byte>, c: nat, z: seq<byte>)
    requires Passes(s, a, x, b, y) && Passes(s, b, y, c, z)
    ensures Passes(s, a, x, c, z)
    decreases |s| - a
  {
    hide Block, BitsNat;
    if !(a == b && x == y) {
      var r := Block(BitsNat(s[a + 1..a + 3]), s, a + 3, x).value;
      PassesTrans(s, r.pos, r.out, b, y, c, z);
    }
  }

  lemma {:induction false} PassesBlocks(s: seq<bool>, pos: nat, out: seq<byte>, end: nat, out': seq<byte>)
    requires Passes(s, pos, out, end, out')
    ensures Blocks(s, pos, out) == Blocks(s, end, out')
    decreases |s| - pos
  {
    hide Block, BitsNat;
    if !(pos == end && out == out') {
      var r := Block(BitsNat(s[pos + 1..pos + 3]), s, pos + 3, out).value;
      PassesBlocks(s, r.pos, r.out, end, out');
    }
  }

  /** In every stream that starts with `after`, whole blocks lead from the end of `before` to the end of `after`. */
  ghost predicate Continues(before: seq<bool>, after: seq<bool>, out: seq<byte>, out': seq<byte>) {
    before <= after && forall s :: after <= s ==> Passes(s, |before|, out, |after|, out')
  }

  /** In every stream that starts with `after`, decoding from the end of `before` stops at the end of `after`. */
  ghost predicate Ends(before: seq<bool>, after: seq<bool>, out: seq<byte>, out': seq<byte>) {
    before <= after && forall s :: after <= s ==> Blocks(s, |before|, out) == Some(Progress(out', |after|))
  }

  lemma ContinuesSelf(before: seq<bool>, out: seq<byte>)
    ensures Continues(before, before, out, out)
  {
    hide Blocks;
  }

  lemma ContinuesTrans(a: seq<bool>, b: seq<bool>, c: seq<bool>, x: seq<byte>, y: seq<byte>, z: seq<byte>)
    requires Continues(a, b, x, y)
    ensures Continues(b, c, y, z) ==> Continues(a, c, x, z)
    ensures Ends(b, c, y, z) ==> Ends(a, c, x, z)
  {
    hide Blocks, Passes;
    forall s | b <= s && c <= s
      ensures Passes(s, |b|, y, |c|, z) ==> Passes(s, |a|, x, |c|, z)
      ensures Blocks(s, |a|, x) == Blocks(s, |b|, y)
    {
      assert Passes(s, |a|, x, |b|, y);
      PassesBlocks(s, |a|, x, |b|, y);
      if Passes(s, |b|, y, |c|, z) {
        PassesTrans(s, |a|, x, |b|, y, |c|, z);
      }
    }
  }

  ghost predicate Gives(r: Option<Progress>, out: seq<byte>, pos: nat) {
    r == Some(Progress(out, pos))
  }

  /** A whole block, from its type on. */
  ghost predicate BlockIs(before: seq<bool>, after: seq<bool>, out: seq<byte>, out': seq<byte>) {
    && before <= after && |before| + 2 <= |after|
    && forall s :: after <= s ==> BlockAt(s, |before|, out, out', |after|)
  }

  ghost predicate BlockAt(s: seq<bool>, pos: nat, out: seq<byte>, out': seq<byte>, end: nat) {
    pos + 2 <= |s| && Gives(Block(BitsNat(s[pos..pos + 2]), s, pos + 2, out), out', end)
  }

  /** A block after its final bit. */
  lemma BlockInStream(start: seq<bool>, final: bool, after: seq<bool>, out: seq<byte>, out': seq<byte>)
    requires BlockIs(start + [final], after, out, out')
    ensures !final ==> Continues(start, after, out, out')
    ensures final ==> Ends(start, after, out, out')
  {
    hide Block, BlockAt, Blocks, Passes;
    forall s | after <= s
      ensures if final then Blocks(s, |start|, out) == Some(Progress(out', |after|))
        else Passes(s, |start|, out, |after|, out')
    {
      BlockStep(s, start, final, out, out', |after|);
    }
  }

  lemma BlockStep(s: seq<bool>, start: seq<bool>, final: bool, out: seq<byte>, out': seq<byte>, end: nat)
    requires start + [final] <= s && BlockAt(s, |start| + 1, out, out', end)
    ensures if final then Blocks(s, |start|, out) == Some(Progress(out', end)) else Passes(s, |start|, out, end, out')
  {
    hide Block, BitsNat;
    assert s[|start|] == final;
    assert Passes(s, end, out', end, out');
  }

  // ----- blocks with Huffman codes -----

  lemma PrefixAt(s: seq<bool>, a: seq<bool>, b: seq<bool>, c: seq<bool>)
    requires a + b + c <= s
    ensures At(s, |a|, b) && At(s, |a| + |b|, c)
  {
    assert s[|a|..|a| + |b|] == b;
    assert s[|a| + |b|..|a| + |b| + |c|] == c;
  }

  lemma KindAt(s: seq<bool>, pos: nat, kind: nat)
    requires At(s, pos, NatBits(kind, 2)) && kind < 4
    ensures pos + 2 <= |s| && BitsNat(s[pos..pos + 2]) == kind
  {
    Pow2Values();
    NumberAt(s, pos, kind, 2);
  }

  /** A dynamic block decodes to what its tokens stand for. */
  lemma DynamicBlockIs(before: seq<bool>, ll: seq<nat>, d: seq<nat>, h: seq<bool>, ts: seq<Token>, out: seq<byte>)
    requires DynamicOpening(ts, ll, d, h) && TokensOk(ts, |out|)
    ensures BlockIs(before, before + h + BodyBits(ll, d, ts), out, Expand(out, ts))
  {
    hide *;
    OpeningLong(ts, ll, d, h);
    var body, out' := BodyBits(ll, d, ts), Expand(out, ts);
    var pos, end := |before|, |before| + |h| + |body|;
    forall s | before + h + body <= s ensures BlockAt(s, pos, out, out', end) {
      DynamicBlockAt(s, before, ll, d, h, ts, out);
    }
    BlockIsIntro(before, h, body, pos, end, out, out');
  }

  lemma OpeningLong(ts: seq<Token>, ll: seq<nat>, d: seq<nat>, h: seq<bool>)
    requires DynamicOpening(ts, ll, d, h)
    ensures |h| >= 2
    ensures Feasible(ll) && Feasible(d) && Used(ll, 256) && AllSendable(ll, d, ts) && OpensWith(ll, d, h)
  {
    hide HeaderOk, HeaderShort, HeaderBits, Feasible;
  }

  lemma DynamicBlockAt(s: seq<bool>, before: seq<bool>, ll: seq<nat>, d: seq<nat>, h: seq<bool>, ts: seq<Token>,
                       out: seq<byte>)
    requires DynamicOpening(ts, ll, d, h) && TokensOk(ts, |out|)
    requires before + h + BodyBits(ll, d, ts) <= s
    ensures BlockAt(s, |before|, out, Expand(out, ts), |before| + |h| + |BodyBits(ll, d, ts)|)
  {
    hide *;
    OpeningLong(ts, ll, d, h);
    PrefixAt(s, before, h, BodyBits(ll, d, ts));
    HeaderAt(s, |before|, ll, d, h);
    BodyRoundTrip(ll, d, ts, s, |before| + |h|, out);
    DynamicBlock(s, |before|, ll, d, |before| + |h|, out, Expand(out, ts), |before| + |h| + |BodyBits(ll, d, ts)|);
  }

  lemma HeaderAt(s: seq<bool>, pos: nat, ll: seq<nat>, d: seq<nat>, h: seq<bool>)
    requires OpensWith(ll, d, h) && At(s, pos, h)
    ensures pos + 2 <= |s| && BitsNat(s[pos..pos + 2]) == 2
    ensures HeaderGives(s, pos + 2, ll, d, pos + |h|)
  {
    hide HeaderBits, NatBits, At, BitsNat, HeaderGives, CodeOk, Feasible, Place, ItemsSendable, ItemsOk, UnpackAll;
    hide HeaderShort;
    var nCl, cl, items :| HeaderOk(ll, d, nCl, cl, items) && HeaderShort(ll, d, nCl, cl, items)
      && h == NatBits(2, 2) + HeaderBits(|ll|, |d|, nCl, cl, items);
    HeaderHere(s, pos, ll, d, nCl, cl, items);
  }

  lemma HeaderHere(s: seq<bool>, pos: nat, ll: seq<nat>, d: seq<nat>, nCl: nat, cl: seq<nat>, items: seq<Item>)
    requires HeaderOk(ll, d, nCl, cl, items)
    requires At(s, pos, NatBits(2, 2) + HeaderBits(|ll|, |d|, nCl, cl, items))
    ensures pos + 2 <= |s| && BitsNat(s[pos..pos + 2]) == 2
    ensures HeaderGives(s, pos + 2, ll, d, pos + |NatBits(2, 2) + HeaderBits(|ll|, |d|, nCl, cl, items)|)
  {
    hide *;
    HeaderWell(ll, d, nCl, cl, items);
    AtAppend(s, pos, NatBits(2, 2), HeaderBits(|ll|, |d|, nCl, cl, items));
    KindLong(2);
    KindAt(s, pos, 2);
    HeaderRoundTrip(ll, d, nCl, cl, items, s, pos + 2);
  }

  lemma HeaderWell(ll: seq<nat>, d: seq<nat>, nCl: nat, cl: seq<nat>, items: seq<Item>)
    requires HeaderOk(ll, d, nCl, cl, items)
    ensures 257 <= |ll| && 1 <= |d| && 4 <= nCl <= 19 && |cl| == 19 && ItemsSendable(cl, items)
  {
  }

  lemma DynamicBlock(s: seq<bool>, pos: nat, ll: seq<nat>, d: seq<nat>, body: nat, out: seq<byte>, out': seq<byte>,
                     end: nat)
    requires pos + 2 <= |s| && BitsNat(s[pos..pos + 2]) == 2 && HeaderGives(s, pos + 2, ll, d, body)
    requires Body(ll, d, s, body, out) == Some(Progress(out', end))
    ensures BlockAt(s, pos, out, out', end)
  {
    hide Body, DynamicCodes, BitsNat;
  }

  /** A block with the fixed codes decodes to what its tokens stand for. */
  lemma StaticBlockIs(before: seq<bool>, ts: seq<Token>, out: seq<byte>)
    requires AllSendable(StaticLit(), StaticDist(), ts) && Used(StaticLit(), 256) && TokensOk(ts, |out|)
    ensures BlockIs(before, before + NatBits(1, 2) + BodyBits(StaticLit(), StaticDist(), ts), out, Expand(out, ts))
  {
    hide *;
    KindLong(1);
    var h, body, out' := NatBits(1, 2), BodyBits(StaticLit(), StaticDist(), ts), Expand(out, ts);
    var pos, end := |before|, |before| + |h| + |body|;
    forall s | before + h + body <= s ensures BlockAt(s, pos, out, out', end) {
      StaticBlockAt(s, before, ts, out);
    }
    BlockIsIntro(before, h, body, pos, end, out, out');
  }

  lemma KindLong(kind: nat)
    ensures |NatBits(kind, 2)| == 2
  {
  }

  lemma BlockIsIntro(before: seq<bool>, h: seq<bool>, body: seq<bool>, pos: nat, end: nat, out: seq<byte>,
                     out': seq<byte>)
    requires |h| >= 2 && pos == |before| && end == |before| + |h| + |body|
    requires forall s :: before + h + body <= s ==> BlockAt(s, pos, out, out', end)
    ensures BlockIs(before, before + h + body, out, out')
  {
    hide BlockAt;
    assert |before + h + body| == end;
  }

  lemma StaticBlockAt(s: seq<bool>, before: seq<bool>, ts: seq<Token>, out: seq<byte>)
    requires AllSendable(StaticLit(), StaticDist(), ts) && Used(StaticLit(), 256) && TokensOk(ts, |out|)
    requires before + NatBits(1, 2) + BodyBits(StaticLit(), StaticDist(), ts) <= s
    ensures BlockAt(s, |before|, out, Expand(out, ts), |before| + 2 + |BodyBits(StaticLit(), StaticDist(), ts)|)
  {
    hide *;
    var ll, d := StaticLit(), StaticDist();
    StaticSizes(ll, d);
    KindLong(1);
    PrefixAt(s, before, NatBits(1, 2), BodyBits(ll, d, ts));
    KindAt(s, |before|, 1);
    BodyRoundTrip(ll, d, ts, s, |before| + 2, out);
    StaticBlock(s, |before|, out, Expand(out, ts), |before| + 2 + |BodyBits(ll, d, ts)|);
  }

  lemma StaticBlock(s: seq<bool>, pos: nat, out: seq<byte>, out': seq<byte>, end: nat)
    requires pos + 2 <= |s| && BitsNat(s[pos..pos + 2]) == 1
    requires Body(StaticLit(), StaticDist(), s, pos + 2, out) == Some(Progress(out', end))
    ensures BlockAt(s, pos, out, out', end)
  {
    hide Body, BitsNat, StaticLit, StaticDist;
  }

  // ----- stored blocks -----

  /** The zero bits that fill up the byte after n bits. */
  function Padding(n: nat): (r: seq<bool>)
    ensures |r| == (8 - n % 8) % 8
  {
    NatBits(0, (8 - n % 8) % 8)
  }

  lemma PaddingAligns(n: nat)
    ensures n + |Padding(n)| == Aligned(n) && Aligned(n) % 8 == 0
  {
    hide Padding;
    Rounded(n, n / 8, n % 8);
  }

  lemma Rounded(n: nat, q: nat, r: nat)
    requires n == 8 * q + r && r < 8
    ensures n + (8 - r) % 8 == Aligned(n) && Aligned(n) % 8 == 0
  {
  }

  /** The two counts of a stored block. */
  function StoredHeader(n: nat): (r: seq<bool>)
    requires n <= 65535
    ensures |r| == 32
  {
    NatBits(n, 16) + NatBits(65535 - n, 16)
  }

  /** A stored block from its type on, when it starts after n bits. */
  function StoredBits(n: nat, bytes: seq<byte>): seq<bool>
    requires |bytes| <= 65535
  {
    NatBits(0, 2) + Padding(n + 2) + StoredHeader(|bytes|) + ByteBits(bytes)
  }

  lemma {:induction false} StoredRead(s: seq<bool>, pos: nat, bytes: seq<byte>, out: seq<byte>)
    requires At(s, pos, ByteBits(bytes))
    ensures StoredBytes(s, pos, out, |bytes|) == Some(Progress(out + bytes, pos + 8 * |bytes|))
    decreases |bytes|
  {
    hide At, NatBits;
    if bytes == [] {
      assert out + bytes == out;
    } else {
      var b, rest := bytes[0], bytes[1..];
      AtAppend(s, pos, NatBits(b, 8), ByteBits(rest));
      ByteIs(s, pos, b);
      StoredRead(s, pos + 8, rest, out + [b]);
      assert (out + [b]) + rest == out + bytes;
    }
  }

  lemma ByteIs(s: seq<bool>, pos: nat, b: byte)
    requires At(s, pos, NatBits(b, 8))
    ensures pos + 8 <= |s| && ByteAt(s, pos) == b
  {
    Pow2Values();
    NumberAt(s, pos, b, 8);
  }

  lemma FieldIs(s: seq<bool>, pos: nat, v: nat)
    requires At(s, pos, NatBits(v, 16)) && v <= 65535
    ensures Field(s, pos, 16) == Some(v)
  {
    Pow2Values();
    NumberAt(s, pos, v, 16);
  }

  /** A stored block decodes to its bytes. */
  lemma StoredBlockIs(before: seq<bool>, bytes: seq<byte>, out: seq<byte>)
    requires |bytes| <= 65535
    ensures BlockIs(before, before + StoredBits(|before|, bytes), out, out + bytes)
  {
    hide *;
    KindLong(0);
    PaddingAligns(|before| + 2);
    var pad := Padding(|before| + 2);
    var h, body, out' := NatBits(0, 2), pad + StoredHeader(|bytes|) + ByteBits(bytes), out + bytes;
    var pos, end := |before|, |before| + |h| + |body|;
    forall s | before + h + body <= s ensures BlockAt(s, pos, out, out', end) {
      PrefixAt(s, before, h, body);
      KindAt(s, pos, 0);
      StoredBlockAt(s, pos, pad, body, bytes, out, end);
    }
    BlockIsIntro(before, h, body, pos, end, out, out');
    StoredBitsIs(before, bytes);
  }

  lemma StoredBitsIs(before: seq<bool>, bytes: seq<byte>)
    requires |bytes| <= 65535
    ensures before + StoredBits(|before|, bytes)
         == before + NatBits(0, 2) + (Padding(|before| + 2) + StoredHeader(|bytes|) + ByteBits(bytes))
  {
    hide ByteBits, NatBits, Padding, StoredHeader;
    var pad, counts := Padding(|before| + 2), StoredHeader(|bytes|);
    assert StoredBits(|before|, bytes) == NatBits(0, 2) + (pad + counts + ByteBits(bytes));
    Associate(before, NatBits(0, 2), pad + counts + ByteBits(bytes));
  }

  lemma StoredBlockAt(s: seq<bool>, pos: nat, pad: seq<bool>, body: seq<bool>, bytes: seq<byte>, out: seq<byte>,
                      end: nat)
    requires |bytes| <= 65535 && pos + 2 <= |s| && BitsNat(s[pos..pos + 2]) == 0
    requires pos + 2 + |pad| == Aligned(pos + 2) && body == pad + StoredHeader(|bytes|) + ByteBits(bytes)
    requires At(s, pos + 2, body) && end == pos + 2 + |body|
    ensures BlockAt(s, pos, out, out + bytes, end)
  {
    hide *;
    var start := pos + 2 + |pad|;
    StoredPieces(s, pos + 2, pad, bytes);
    StoredRead(s, start + 32, bytes, out);
    StoredBlock(s, pos, out, |bytes|, start, out + bytes, start + 32 + 8 * |bytes|);
  }

  lemma StoredPieces(s: seq<bool>, pos: nat, pad: seq<bool>, bytes: seq<byte>)
    requires |bytes| <= 65535 && At(s, pos, pad + StoredHeader(|bytes|) + ByteBits(bytes))
    ensures Field(s, pos + |pad|, 16) == Some(|bytes|) && Field(s, pos + |pad| + 16, 16) == Some(65535 - |bytes|)
    ensures At(s, pos + |pad| + 32, ByteBits(bytes))
  {
    hide At, ByteBits, StoredHeader, Field;
    AtAppend(s, pos, pad + StoredHeader(|bytes|), ByteBits(bytes));
    AtAppend(s, pos, pad, StoredHeader(|bytes|));
    CountsAt(s, pos + |pad|, |bytes|);
  }

  lemma CountsAt(s: seq<bool>, pos: nat, n: nat)
    requires n <= 65535 && At(s, pos, StoredHeader(n))
    ensures Field(s, pos, 16) == Some(n) && Field(s, pos + 16, 16) == Some(65535 - n)
  {
    hide At, NatBits, Field;
    AtAppend(s, pos, NatBits(n, 16), NatBits(65535 - n, 16));
    FieldIs(s, pos, n);
    FieldIs(s, pos + 16, 65535 - n);
  }

  lemma StoredBlock(s: seq<bool>, pos: nat, out: seq<byte>, n: nat, start: nat, out': seq<byte>, end: nat)
    requires pos + 2 <= |s| && BitsNat(s[pos..pos + 2]) == 0 && start == Aligned(pos + 2) && n <= 65535
    requires Field(s, start, 16) == Some(n) && Field(s, start + 16, 16) == Some(65535 - n)
    requires StoredBytes(s, start + 32, out, n) == Some(Progress(out', end))
    ensures BlockAt(s, pos, out, out', end)
  {
    hide StoredBytes, BitsNat, Field, Aligned;
  }
}
