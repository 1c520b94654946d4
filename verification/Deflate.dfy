/** The DEFLATE format of RFC 1951 section 3.2, as a decoder of bit strings. */
module Deflate {
  import opened Bits
  import opened CanonicalCode

  datatype Option<+T> = None | Some(value: T)

  // ----- tokens and what they stand for -----

  datatype Token = Literal(lit: byte) | Match(len: nat, dist: nat)

  /** The format's limits on a token, given how many bytes of history there are. */
  ghost predicate TokenOk(t: Token, history: nat) {
    t.Match? ==> 3 <= t.len <= 258 && 1 <= t.dist <= 32768 && t.dist <= history
  }

  function TokenLength(t: Token): nat {
    match t
    case Literal(_) => 1
    case Match(len, _) => len
  }

  ghost predicate TokensOk(ts: seq<Token>, history: nat)
    decreases |ts|
  {
    |ts| > 0 ==> TokenOk(ts[0], history) && TokensOk(ts[1..], history + TokenLength(ts[0]))
  }

  /** Appends len bytes, each a copy of the byte dist back: the copy may overlap what it writes. */
  function Copy(out: seq<byte>, len: nat, dist: nat): (r: seq<byte>)
    requires 1 <= dist <= |out|
    ensures |r| == |out| + len
    decreases len
  {
    if len == 0 then out else Copy(out + [out[|out| - dist]], len - 1, dist)
  }

  function Apply(out: seq<byte>, t: Token): (r: seq<byte>)
    requires t.Match? ==> 1 <= t.dist <= |out|
    ensures |r| == |out| + TokenLength(t)
  {
    match t
    case Literal(b) => out + [b]
    case Match(len, dist) => Copy(out, len, dist)
  }

  /** The output after the tokens ts. */
  ghost function Expand(out: seq<byte>, ts: seq<Token>): seq<byte>
    requires TokensOk(ts, |out|)
    decreases |ts|
  {
    if ts == [] then out else Expand(Apply(out, ts[0]), ts[1..])
  }

  // ----- the decoder's tables -----

  const LENGTH_BASE: seq<nat> := [3, 4, 5, 6, 7, 8, 9, 10, 11, 13, 15, 17, 19, 23, 27, 31, 35, 43, 51, 59, 67, 83,
                                  99, 115, 131, 163, 195, 227, 258, 0, 0]
  const LENGTH_EXTRA: seq<nat> := [0, 0, 0, 0, 0, 0, 0, 0, 1, 1, 1, 1, 2, 2, 2, 2, 3, 3, 3, 3, 4, 4, 4, 4, 5, 5, 5, 5,
                                   0, 0, 0]
  const DIST_BASE: seq<nat> := [1, 2, 3, 4, 5, 7, 9, 13, 17, 25, 33, 49, 65, 97, 129, 193, 257, 385, 513, 769, 1025,
                                1537, 2049, 3073, 4097, 6145, 8193, 12289, 16385, 24577, 0, 0]
  const DIST_EXTRA: seq<nat> := [0, 0, 0, 0, 1, 1, 2, 2, 3, 3, 4, 4, 5, 5, 6, 6, 7, 7, 8, 8, 9, 9, 10, 10, 11, 11, 12,
                                 12, 13, 13, 0, 0]
  /** The order in which code length code lengths are sent. */
  const LENGTH_ORDER: seq<nat> := [16, 17, 18, 0, 8, 7, 9, 6, 10, 5, 11, 4, 12, 3, 13, 2, 14, 1, 15]

  /** The base and the number of extra bits of length symbol s. */
  function LengthBase(s: nat): nat
    requires 257 <= s <= 285
  {
    LENGTH_BASE[s - 257]
  }

  function LengthExtra(s: nat): nat
    requires 257 <= s <= 285
  {
    LENGTH_EXTRA[s - 257]
  }

  /** The base and the number of extra bits of distance symbol s. */
  function DistBase(s: nat): nat
    requires s < 30
  {
    DIST_BASE[s]
  }

  function DistExtraBits(s: nat): nat
    requires s < 30
  {
    DIST_EXTRA[s]
  }

  /** The code length symbol sent i-th. */
  function Order(i: nat): (s: nat)
    requires i < 19
    ensures s < 19
  {
    LENGTH_ORDER[i]
  }

  // ----- decoding -----

  /** The code of symbol s occurs at pos. */
  ghost predicate Codeword(lens: seq<nat>, s: nat, bits: seq<bool>, pos: nat) {
    Used(lens, s) && At(bits, pos, CodeBits(lens, s))
  }

  /** The symbol whose code occurs at pos. */
  ghost function Symbol(lens: seq<nat>, bits: seq<bool>, pos: nat): (r: Option<nat>)
    ensures r.Some? ==> Codeword(lens, r.value, bits, pos)
  {
    if exists s :: Codeword(lens, s, bits, pos) then
      var s :| Codeword(lens, s, bits, pos);
      Some(s)
    else None
  }

  lemma SymbolIs(lens: seq<nat>, s: nat, bits: seq<bool>, pos: nat)
    requires Feasible(lens) && Codeword(lens, s, bits, pos)
    ensures Symbol(lens, bits, pos) == Some(s)
  {
    var t := Symbol(lens, bits, pos).value;
    var b := bits[pos..];
    assert CodeBits(lens, s) <= b;
    assert CodeBits(lens, t) <= b;
    PrefixFree(lens, s, t, b);
  }

  /** The value of n bits at pos, the first being the least significant. */
  ghost function Field(bits: seq<bool>, pos: nat, n: nat): Option<nat> {
    if pos + n <= |bits| then Some(BitsNat(bits[pos..pos + n])) else None
  }

  /** What a block body leaves: the output and the position after the end-of-block code. */
  datatype Progress = Progress(out: seq<byte>, pos: nat)

  /** The length or distance a symbol and its extra bits stand for, and the position after them. */
  ghost function Extended(base: nat, extra: nat, bits: seq<bool>, pos: nat): Option<(nat, nat)> {
    match Field(bits, pos, extra)
    case None => None
    case Some(v) => Some((base + v, pos + extra))
  }

  /** The match that starts with length symbol s, the position being after that symbol's code. */
  ghost function MatchAt(d: seq<nat>, s: nat, bits: seq<bool>, pos: nat): (r: Option<(Token, nat)>)
    requires 257 <= s <= 285
    ensures r.Some? ==> r.value.0.Match? && pos < r.value.1 <= |bits|
  {
    match Extended(LengthBase(s), LengthExtra(s), bits, pos)
    case None => None
    case Some((len, p1)) =>
      match Symbol(d, bits, p1)
      case None => None
      case Some(t) =>
        if t >= 30 then None else
        match Extended(DistBase(t), DistExtraBits(t), bits, p1 + d[t])
        case None => None
        case Some((dist, p2)) => Some((Match(len, dist), p2))
  }

  /** Decodes tokens up to the end-of-block code. */
  ghost function Body(ll: seq<nat>, d: seq<nat>, bits: seq<bool>, pos: nat, out: seq<byte>): (r: Option<Progress>)
    ensures r.Some? ==> pos < r.value.pos <= |bits|
    decreases |bits| - pos
  {
    match Symbol(ll, bits, pos)
    case None => None
    case Some(s) =>
      var p := pos + ll[s];
      if s < 256 then Body(ll, d, bits, p, out + [s])
      else if s == 256 then Some(Progress(out, p))
      else if s > 285 then None
      else
        match MatchAt(d, s, bits, p)
        case None => None
        case Some((t, p')) =>
          if t.dist == 0 || t.dist > |out| then None else Body(ll, d, bits, p', Apply(out, t))
  }

  /** A code the decoder accepts: complete, or with at most one symbol. */
  ghost predicate CodeOk(lens: seq<nat>) {
    LengthsOk(lens) && (Kraft(lens) == 32768 || AtMostOneUsed(lens))
  }

  ghost predicate AtMostOneUsed(lens: seq<nat>) {
    forall i, j :: 0 <= i < j < |lens| ==> lens[i] == 0 || lens[j] == 0
  }

  /** Repetitions of one code length. */
  function Repeat(v: nat, n: nat): (r: seq<nat>)
    ensures |r| == n && forall i :: 0 <= i < n ==> r[i] == v
  {
    seq(n, _ => v)
  }

  /** The extra bits of a run symbol, and the shortest run it stands for. */
  function RunBits(sym: nat): nat {
    if sym == 16 then 2 else if sym == 17 then 3 else 7
  }

  function RunBase(sym: nat): nat {
    if sym == 18 then 11 else 3
  }

  /** Decodes code lengths until there are n or more: symbols 16, 17 and 18 stand for runs. */
  ghost function Lengths(cl: seq<nat>, n: nat, bits: seq<bool>, pos: nat, lens: seq<nat>): (r: Option<(seq<nat>, nat)>)
    ensures r.Some? ==> pos <= r.value.1
    decreases |bits| - pos
  {
    if |lens| >= n then Some((lens, pos)) else
    match Symbol(cl, bits, pos)
    case None => None
    case Some(s) =>
      var p := pos + cl[s];
      if s < 16 then Lengths(cl, n, bits, p, lens + [s])
      else if s > 18 || (s == 16 && lens == []) then None
      else
        match Field(bits, p, RunBits(s))
        case None => None
        case Some(v) =>
          Lengths(cl, n, bits, p + RunBits(s), lens + Repeat(if s == 16 then lens[|lens| - 1] else 0, v + RunBase(s)))
  }

  /** Reads n code length code lengths of three bits each into their places. */
  ghost function ClLengths(n: nat, bits: seq<bool>, pos: nat, cl: seq<nat>, i: nat): Option<seq<nat>>
    requires |cl| == 19
    decreases n - i
  {
    if i >= n || i >= 19 then Some(cl) else
    match Field(bits, pos + 3 * i, 3)
    case None => None
    case Some(v) => ClLengths(n, bits, pos, cl[Order(i) := v], i + 1)
  }

  /** The codes of a dynamic block and the position of its body. */
  datatype Codes = Codes(ll: seq<nat>, d: seq<nat>, pos: nat)

  ghost function DynamicCodes(bits: seq<bool>, pos: nat): (r: Option<Codes>)
    ensures r.Some? ==> pos <= r.value.pos
  {
    if pos + 14 > |bits| then None else
    var nLit := BitsNat(bits[pos..pos + 5]) + 257;
    var nDist := BitsNat(bits[pos + 5..pos + 10]) + 1;
    var nCl := BitsNat(bits[pos + 10..pos + 14]) + 4;
    match ClLengths(nCl, bits, pos + 14, Repeat(0, 19), 0)
    case None => None
    case Some(cl) =>
      if !CodeOk(cl) then None else
      match Lengths(cl, nLit + nDist, bits, pos + 14 + 3 * nCl, [])
      case None => None
      case Some((lens, p)) =>
        if |lens| != nLit + nDist || !CodeOk(lens[nLit..]) || !CodeOk(lens[..nLit]) then None
        else Some(Codes(lens[..nLit], lens[nLit..], p))
  }

  /** The fixed code lengths of RFC 1951 section 3.2.6. */
  function StaticLit(): (r: seq<nat>)
    ensures |r| == 288
  {
    Repeat(8, 144) + Repeat(9, 112) + Repeat(7, 24) + Repeat(8, 8)
  }

  function StaticDist(): (r: seq<nat>)
    ensures |r| == 32
  {
    Repeat(5, 32)
  }

  /** The next byte boundary. */
  function Aligned(pos: nat): nat {
    (pos + 7) / 8 * 8
  }

  /** A stored block's bytes. */
  ghost function Stored(bits: seq<bool>, pos: nat, out: seq<byte>): (r: Option<Progress>)
    ensures r.Some? ==> pos <= r.value.pos
  {
    var p := Aligned(pos);
    match Field(bits, p, 16)
    case None => None
    case Some(len) =>
      match Field(bits, p + 16, 16)
      case None => None
      case Some(nlen) =>
        if len + nlen != 65535 then None else StoredBytes(bits, p + 32, out, len)
  }

  ghost function StoredBytes(bits: seq<bool>, pos: nat, out: seq<byte>, n: nat): (r: Option<Progress>)
    ensures r.Some? ==> r.value.pos == pos + 8 * n
    decreases n
  {
    if n == 0 then Some(Progress(out, pos)) else
    if pos + 8 > |bits| then None else
    StoredBytes(bits, pos + 8, out + [ByteAt(bits, pos)], n - 1)
  }

  ghost function ByteAt(bits: seq<bool>, pos: nat): byte
    requires pos + 8 <= |bits|
  {
    BitsNatBound(bits[pos..pos + 8]);
    Pow2Values();
    BitsNat(bits[pos..pos + 8])
  }

  /** One block, from its type on. */
  ghost function Block(kind: nat, bits: seq<bool>, pos: nat, out: seq<byte>): (r: Option<Progress>)
    ensures r.Some? ==> pos <= r.value.pos
  {
    if kind == 0 then Stored(bits, pos, out)
    else if kind == 1 then Body(StaticLit(), StaticDist(), bits, pos, out)
    else if kind == 2 then
      match DynamicCodes(bits, pos)
      case None => None
      case Some(c) => Body(c.ll, c.d, bits, c.pos, out)
    else None
  }

  /** Decodes blocks up to and including the one marked final. */
  ghost function Blocks(bits: seq<bool>, pos: nat, out: seq<byte>): Option<Progress>
    decreases |bits| - pos
  {
    if pos + 3 > |bits| then None else
    var kind := BitsNat(bits[pos + 1..pos + 3]);
    match Block(kind, bits, pos + 3, out)
    case None => None
    case Some(p) =>
      if bits[pos] then Some(p) else Blocks(bits, p.pos, p.out)
  }
}
