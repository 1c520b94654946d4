/** Sending a block's tokens with given codes: the token buffer is read back and its symbols are looked up. */
module BlockBody {
  import opened Bits
  import opened CanonicalCode
  import opened Deflate
  import opened DeflateEncoding
  import opened HuffmanTable
  import opened BitWriter
  import opened TokenBuffer

  /** A table of code lengths and of the codes as they are put into the bit buffer. */
  class HuffTable {
    const sizes: array<nat>
    const codes: array<nat>

    constructor ()
      ensures fresh(sizes) && fresh(codes) && sizes.Length == 288 && codes.Length == 288 && sizes != codes
    {
      sizes := new nat[288](_ => 0);
      codes := new nat[288](_ => 0);
    }

    ghost function Arrays(): set<object> {
      {sizes, codes}
    }

    /** The table holds the canonical code with the lengths `lens`. */
    ghost predicate Holds(lens: seq<nat>)
      reads sizes, codes
    {
      && |lens| <= sizes.Length && sizes[..|lens|] == lens && Feasible(lens)
      && CodesFor(lens, codes[..])
    }

    /** Sends the code of symbol s. */
    method PutSymbol(w: BitWriter, s: nat, ghost lens: seq<nat>)
      requires w.Valid() && Holds(lens) && Used(lens, s) && w.out !in Arrays()
      modifies w, w.out
      ensures w.Valid() && w.bits == old(w.bits) + CodeBits(lens, s) && w.flushed == old(w.flushed) && Holds(lens)
    {
      TableEntry(lens, sizes[..], codes[..], s);
      hide Feasible, CodesFor, CodeBits, NatBits;
      w.PutBits(codes[s], sizes[s]);
    }
  }

  lemma TableEntry(lens: seq<nat>, sizes: seq<nat>, codes: seq<nat>, s: nat)
    requires |lens| <= |sizes| && sizes[..|lens|] == lens && Feasible(lens) && CodesFor(lens, codes) && Used(lens, s)
    ensures s < |sizes| && s < |codes| && sizes[s] == lens[s] <= 15
    ensures codes[s] < Pow2(lens[s]) && NatBits(codes[s], lens[s]) == CodeBits(lens, s)
  {
  }

  /** Sends the n low bits of v. */
  method PutLow(w: BitWriter, v: nat, n: nat)
    requires w.Valid() && n <= 16
    modifies w, w.out
    ensures w.Valid() && w.bits == old(w.bits) + NatBits(v, n) && w.flushed == old(w.flushed)
  {
    hide NatBits, Low;
    LowBound(v, n);
    NatBitsLow(v, n);
    w.PutBits(Low(v, n), n);
  }

  /** Sends a match whose length less 3 is m and whose distance less 1 is x. */
  method PutMatch(w: BitWriter, lit: HuffTable, dist: HuffTable, m: nat, x: nat, ghost ll: seq<nat>, ghost d: seq<nat>)
    requires w.Valid() && lit.Holds(ll) && dist.Holds(d) && m < 256 && x < 32768
    requires Sendable(ll, d, Match(m + 3, x + 1))
    requires w.out !in lit.Arrays() + dist.Arrays()
    modifies w, w.out
    ensures w.Valid() && w.bits == old(w.bits) + TokenBits(ll, d, Match(m + 3, x + 1)) && w.flushed == old(w.flushed)
    ensures lit.Holds(ll) && dist.Holds(d)
  {
    hide *;
    ghost var b := w.bits;
    MatchPieces(ll, d, m, x, b);
    lit.PutSymbol(w, LenSym(m), ll);
    PutLow(w, m, LenExtra(m));
    dist.PutSymbol(w, DistSym(x), d);
    PutLow(w, x, DistExtra(x));
  }

  lemma MatchPieces(ll: seq<nat>, d: seq<nat>, m: nat, x: nat, b: seq<bool>)
    requires m < 256 && x < 32768 && Sendable(ll, d, Match(m + 3, x + 1))
    ensures Used(ll, LenSym(m)) && Used(d, DistSym(x)) && LenExtra(m) <= 16 && DistExtra(x) <= 16
    ensures b + CodeBits(ll, LenSym(m)) + NatBits(m, LenExtra(m)) + CodeBits(d, DistSym(x)) + NatBits(x, DistExtra(x))
         == b + TokenBits(ll, d, Match(m + 3, x + 1))
  {
    hide CodeBits, NatBits, LenSym, LenExtra, DistSym, DistExtra;
    Gather(b, CodeBits(ll, LenSym(m)), NatBits(m, LenExtra(m)), CodeBits(d, DistSym(x)), NatBits(x, DistExtra(x)));
  }

  lemma Gather<T>(s: seq<T>, a: seq<T>, b: seq<T>, c: seq<T>, d: seq<T>)
    ensures s + a + b + c + d == s + ((a + b) + (c + d))
  {
  }

  /** What the reader has sent and what it has still to read. */
  ghost predicate Sending(ll: seq<nat>, d: seq<nat>, ts: seq<Token>, k: nat, start: seq<bool>, bits: seq<bool>) {
    AllSendable(ll, d, ts) && k <= |ts| && AllSendable(ll, d, ts[..k]) && bits == start + TokensBits(ll, d, ts[..k])
  }

  lemma SendingNext(ll: seq<nat>, d: seq<nat>, ts: seq<Token>, k: nat, start: seq<bool>, bits: seq<bool>)
    requires Sending(ll, d, ts, k, start, bits) && k < |ts|
    ensures Sendable(ll, d, ts[k])
    ensures Sending(ll, d, ts, k + 1, start, bits + TokenBits(ll, d, ts[k]))
  {
    hide TokenBits;
    assert ts[..k + 1][..k] == ts[..k];
    Associate(start, TokensBits(ll, d, ts[..k]), TokenBits(ll, d, ts[k]));
  }

  /** Reads and sends the next token. */
  method SendToken(t: TokenBuffer, w: BitWriter, lit: HuffTable, dist: HuffTable, p: nat, flags: nat, ghost j: nat,
                   ghost k: nat, ghost start: seq<bool>, ghost ll: seq<nat>, ghost d: seq<nat>)
    returns (p': nat)
    requires w.Valid() && lit.Holds(ll) && dist.Holds(d)
    requires t.codePos <= t.buf.Length && k < |t.tokens| && 0 < j
    requires Reading(t.buf[..t.codePos], p, flags, j, t.tokens[k..])
    requires Sending(ll, d, t.tokens, k, start, w.bits)
    requires w.out !in lit.Arrays() + dist.Arrays() && w.out != t.buf && w as object != t
    modifies w, w.out
    ensures w.Valid() && w.flushed == old(w.flushed) && lit.Holds(ll) && dist.Holds(d)
    ensures Reading(t.buf[..t.codePos], p', flags / 2, j - 1, t.tokens[k + 1..])
    ensures Sending(ll, d, t.tokens, k + 1, start, w.bits)
  {
    hide *;
    ghost var tok := t.tokens[k];
    TokenHere(t.buf[..t.codePos], p, flags, j, t.tokens, k, start, w.bits, ll, d);
    HereMatch(t.buf[..t.codePos], p, flags, tok);
    if flags % 2 == 1 {
      var m: nat := t.buf[p];
      var x: nat := t.buf[p + 1] as nat + 256 * t.buf[p + 2] as nat;
      p' := p + 3;
      PutMatch(w, lit, dist, m, x, ll, d);
    } else {
      var b := t.buf[p];
      LiteralBits(ll, d, b);
      p' := p + 1;
      lit.PutSymbol(w, b, ll);
    }
  }

  /** The next token as its flag and payload say. */
  ghost predicate Here(bytes: seq<byte>, p: nat, flags: nat, t: Token) {
    match t
    case Literal(b) => flags % 2 == 0 && p < |bytes| && bytes[p] == b
    case Match(len, dist) =>
      && flags % 2 == 1 && p + 3 <= |bytes| && len == bytes[p] as nat + 3 && 1 <= dist <= 32768
      && dist == bytes[p + 1] as nat + 256 * bytes[p + 2] as nat + 1
  }

  lemma TokenHere(bytes: seq<byte>, p: nat, flags: nat, j: nat, ts: seq<Token>, k: nat, start: seq<bool>,
                  bits: seq<bool>, ll: seq<nat>, d: seq<nat>)
    requires k < |ts| && 0 < j && Reading(bytes, p, flags, j, ts[k..]) && Sending(ll, d, ts, k, start, bits)
    ensures Here(bytes, p, flags, ts[k]) && Sendable(ll, d, ts[k])
    ensures Reading(bytes, p + (if ts[k].Match? then 3 else 1), flags / 2, j - 1, ts[k + 1..])
    ensures Sending(ll, d, ts, k + 1, start, bits + TokenBits(ll, d, ts[k]))
  {
    hide Sending, TokenBits;
    assert ts[k..][0] == ts[k] && ts[k..][1..] == ts[k + 1..];
    ReadToken(bytes, p, flags, j, ts[k..]);
    SendingNext(ll, d, ts, k, start, bits);
    PayloadIs(bytes, p, flags, ts[k]);
  }

  lemma PayloadIs(bytes: seq<byte>, p: nat, flags: nat, t: Token)
    requires Packable(t) && p + |Payload(t)| <= |bytes| && bytes[p..p + |Payload(t)|] == Payload(t)
    requires flags % 2 == if t.Match? then 1 else 0
    ensures Here(bytes, p, flags, t)
  {
    var s := bytes[p..p + |Payload(t)|];
    assert s[0] == bytes[p];
    if t.Match? {
      assert s[1] == bytes[p + 1] && s[2] == bytes[p + 2];
    }
  }

  lemma HereMatch(bytes: seq<byte>, p: nat, flags: nat, t: Token)
    requires Here(bytes, p, flags, t)
    ensures p < |bytes|
    ensures flags % 2 == 0 ==> t == Literal(bytes[p])
    ensures flags % 2 == 1 ==> p + 3 <= |bytes|
    ensures flags % 2 == 1 ==> var x: nat := bytes[p + 1] as nat + 256 * bytes[p + 2] as nat;
                                 x < 32768 && t == Match(bytes[p] as nat + 3, x + 1)
  {
  }

  lemma LiteralBits(ll: seq<nat>, d: seq<nat>, b: byte)
    requires Sendable(ll, d, Literal(b))
    ensures Used(ll, b) && TokenBits(ll, d, Literal(b)) == CodeBits(ll, b)
  {
    hide CodeBits;
  }

  /** Between two tokens of the loop: j flags of the group are left and k tokens have been sent. */
  ghost predicate Between(bytes: seq<byte>, p: nat, flags: nat, j: nat, ll: seq<nat>, d: seq<nat>, ts: seq<Token>,
                          k: nat, start: seq<bool>, bits: seq<bool>)
  {
    k <= |ts| && Reading(bytes, p, flags, j, ts[k..]) && Sending(ll, d, ts, k, start, bits)
  }

  lemma SendingStarts(ll: seq<nat>, d: seq<nat>, ts: seq<Token>, start: seq<bool>)
    requires AllSendable(ll, d, ts) && AllPackable(ts)
    ensures Between(Pack(ts), 0, 1, 0, ll, d, ts, 0, start, start)
  {
    hide Reading, Pack;
    ReadingStarts(ts);
    assert ts[..0] == [] && ts[0..] == ts;
    assert start + TokensBits(ll, d, []) == start;
  }

  lemma BetweenMore(bytes: seq<byte>, p: nat, flags: nat, j: nat, ll: seq<nat>, d: seq<nat>, ts: seq<Token>, k: nat,
                    start: seq<bool>, bits: seq<bool>)
    requires Between(bytes, p, flags, j, ll, d, ts, k, start, bits)
    ensures p < |bytes| <==> k < |ts|
    ensures flags == 1 <==> j == 0
    ensures k < |ts| && flags == 1 ==> Between(bytes, p + 1, bytes[p] as nat + 256, 8, ll, d, ts, k, start, bits)
    ensures k < |ts| ==> k <= |ts| && Reading(bytes, p, flags, j, ts[k..]) && Sending(ll, d, ts, k, start, bits)
  {
    hide Reading, Sending;
    ReadingMore(bytes, p, flags, j, ts[k..]);
    if k < |ts| && flags == 1 {
      ReadFlags(bytes, p, ts[k..]);
    }
  }

  lemma SendingEnds(ll: seq<nat>, d: seq<nat>, ts: seq<Token>, k: nat, start: seq<bool>, bits: seq<bool>)
    requires Sending(ll, d, ts, k, start, bits) && k == |ts| && Used(ll, 256)
    ensures bits + CodeBits(ll, 256) == start + BodyBits(ll, d, ts)
  {
    hide CodeBits, TokensBits;
    assert ts[..k] == ts;
    Associate(start, TokensBits(ll, d, ts), CodeBits(ll, 256));
  }

  lemma BetweenSends(bytes: seq<byte>, p: nat, flags: nat, j: nat, ll: seq<nat>, d: seq<nat>, ts: seq<Token>, k: nat,
                     start: seq<bool>, bits: seq<bool>)
    requires Between(bytes, p, flags, j, ll, d, ts, k, start, bits)
    ensures k <= |ts| && Reading(bytes, p, flags, j, ts[k..]) && Sending(ll, d, ts, k, start, bits)
  {
  }

  /** Sends the tokens of the closed token buffer and the end-of-block code; says whether the output buffer has room
      left. */
  method CompressLzCodes(t: TokenBuffer, w: BitWriter, lit: HuffTable, dist: HuffTable, ghost ll: seq<nat>,
                         ghost d: seq<nat>)
    returns (ok: bool)
    requires w.Valid() && lit.Holds(ll) && dist.Holds(d)
    requires t.codePos <= t.buf.Length && AllPackable(t.tokens) && t.buf[..t.codePos] == Pack(t.tokens)
    requires AllSendable(ll, d, t.tokens) && Used(ll, 256)
    requires w.out !in lit.Arrays() + dist.Arrays() && w.out != t.buf && w as object != t
    modifies w, w.out
    ensures w.Valid() && w.bits == old(w.bits) + BodyBits(ll, d, t.tokens) && w.flushed == old(w.flushed)
    ensures ok <==> w.outPos < w.end
  {
    hide *;
    var flags: nat, p: nat := 1, 0;
    ghost var start, bytes, ts := w.bits, t.buf[..t.codePos], t.tokens;
    ghost var j: nat, k: nat := 0, 0;
    SendingStarts(ll, d, ts, start);
    while p < t.codePos
      invariant w.Valid() && w.flushed == old(w.flushed) && lit.Holds(ll) && dist.Holds(d)
      invariant t.codePos <= t.buf.Length && t.buf[..t.codePos] == bytes && t.tokens == ts
      invariant Between(bytes, p, flags, j, ll, d, ts, k, start, w.bits)
      decreases |ts| - k
    {
      BetweenMore(bytes, p, flags, j, ll, d, ts, k, start, w.bits);
      if flags == 1 {
        flags := t.buf[p] as nat + 256;
        p, j := p + 1, 8;
      }
      BetweenSends(bytes, p, flags, j, ll, d, ts, k, start, w.bits);
      p := SendToken(t, w, lit, dist, p, flags, j, k, start, ll, d);
      flags, j, k := flags / 2, j - 1, k + 1;
      SentToken(bytes, p, flags, j, ll, d, ts, k, start, w.bits);
    }
    BetweenMore(bytes, p, flags, j, ll, d, ts, k, start, w.bits);
    BetweenSends(bytes, p, flags, j, ll, d, ts, k, start, w.bits);
    SendingEnds(ll, d, ts, k, start, w.bits);
    lit.PutSymbol(w, 256, ll);
    ok := w.outPos < w.end;
  }

  lemma SentToken(bytes: seq<byte>, p: nat, flags: nat, j: nat, ll: seq<nat>, d: seq<nat>, ts: seq<Token>, k: nat,
                  start: seq<bool>, bits: seq<bool>)
    requires k <= |ts| && Reading(bytes, p, flags, j, ts[k..]) && Sending(ll, d, ts, k, start, bits)
    ensures Between(bytes, p, flags, j, ll, d, ts, k, start, bits)
  {
  }
}
