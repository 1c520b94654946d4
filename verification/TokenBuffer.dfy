/** The compressor's token buffer: literals and matches packed in groups of eight, each group behind a byte of flags. */
module TokenBuffer {
  import opened Bits
  import opened Deflate
  import opened DeflateEncoding

  // ----- the format -----

  ghost predicate Packable(t: Token) {
    t.Match? ==> 3 <= t.len <= 258 && 1 <= t.dist <= 32768
  }

  ghost predicate AllPackable(ts: seq<Token>) {
    forall i :: 0 <= i < |ts| ==> Packable(ts[i])
  }

  /** A literal is its byte; a match is its length less 3 and its distance less 1, low byte first. */
  function Payload(t: Token): (r: seq<byte>)
    requires Packable(t)
    ensures |r| == if t.Match? then 3 else 1
  {
    match t
    case Literal(b) => [b]
    case Match(len, dist) => [len - 3, (dist - 1) % 256, (dist - 1) / 256]
  }

  function Payloads(ts: seq<Token>): seq<byte>
    requires AllPackable(ts)
  {
    if ts == [] then [] else Payload(ts[0]) + Payloads(ts[1..])
  }

  /** Bit i of a group's flag byte says that its token i is a match. */
  function Flags(ts: seq<Token>): (f: nat)
    ensures f < Pow2(|ts|)
  {
    if ts == [] then 0 else (if ts[0].Match? then 1 else 0) + 2 * Flags(ts[1..])
  }

  lemma GroupFlags(ts: seq<Token>)
    requires |ts| <= 8
    ensures Flags(ts) < 256
  {
    Pow2Monotone(|ts|, 8);
    Pow2Values();
  }

  function Group(ts: seq<Token>): seq<byte>
    requires AllPackable(ts) && |ts| <= 8
  {
    GroupFlags(ts);
    [Flags(ts)] + Payloads(ts)
  }

  /** The bytes that stand for a token list. */
  function Pack(ts: seq<Token>): seq<byte>
    requires AllPackable(ts)
    decreases |ts|
  {
    if ts == [] then []
    else if |ts| <= 8 then Group(ts)
    else Group(ts[..8]) + Pack(ts[8..])
  }

  lemma {:induction false} PackAppend(ts: seq<Token>, g: seq<Token>)
    requires AllPackable(ts) && AllPackable(g) && |ts| % 8 == 0
    ensures Pack(ts + g) == Pack(ts) + Pack(g)
    decreases |ts|
  {
    hide Group;
    if ts == [] {
      assert ts + g == g;
    } else if g == [] {
      assert ts + g == ts;
    } else {
      PackAppend(ts[8..], g);
      assert (ts + g)[..8] == ts[..8];
      assert (ts + g)[8..] == ts[8..] + g;
      if |ts| == 8 {
        assert ts[..8] == ts && ts[8..] == [];
      }
    }
  }

  lemma {:induction false} PayloadsSnoc(ts: seq<Token>, t: Token)
    requires AllPackable(ts) && Packable(t)
    ensures AllPackable(ts + [t]) && Payloads(ts + [t]) == Payloads(ts) + Payload(t)
  {
    hide Payload;
    if ts == [] {
      assert (ts + [t])[1..] == [];
    } else {
      PayloadsSnoc(ts[1..], t);
      assert (ts + [t])[1..] == ts[1..] + [t];
    }
  }

  lemma {:induction false} FlagsSnoc(ts: seq<Token>, t: Token)
    ensures Flags(ts + [t]) == Flags(ts) + Shl(if t.Match? then 1 else 0, |ts|)
  {
    if ts == [] {
      assert (ts + [t])[1..] == [];
    } else {
      FlagsSnoc(ts[1..], t);
      assert (ts + [t])[1..] == ts[1..] + [t];
    }
  }

  // ----- the buffer while tokens are being added -----

  /**
   `left` flags of the open group are still to come. Its flag byte, at flagPos, holds the flags so far at its top;
   what is below them was in the buffer before and is shifted out in the end.
   */
  ghost predicate Layout(bytes: seq<byte>, flagPos: nat, codePos: nat, left: nat, ts: seq<Token>) {
    && AllPackable(ts) && 1 <= left <= 8 && 8 - left <= |ts| && (|ts| + left) % 8 == 0
    && flagPos < codePos <= |bytes|
    && Closed(bytes[..flagPos], ts[..|ts| + left - 8])
    && Opened(bytes[flagPos], bytes[flagPos + 1..codePos], left, ts[|ts| + left - 8..])
  }

  ghost predicate Closed(bytes: seq<byte>, ts: seq<Token>) {
    AllPackable(ts) && |ts| % 8 == 0 && bytes == Pack(ts)
  }

  ghost predicate Opened(flags: byte, bytes: seq<byte>, left: nat, ts: seq<Token>) {
    AllPackable(ts) && |ts| + left == 8 && Shr(flags, left) == Flags(ts) && bytes == Payloads(ts)
  }

  lemma ShrUnit(v: nat, flag: nat, n: nat)
    requires flag <= 1 && n < 8
    ensures Shr(v / 2 + 128 * flag, n) == Shr(v, n + 1) + Shl(flag, 7 - n)
  {
    ShrAdd(v / 2, flag, n);
  }

  lemma {:induction false} ShrAdd(v: nat, flag: nat, n: nat)
    requires n < 8
    ensures Shr(v + 128 * flag, n) == Shr(v, n) + Shl(flag, 7 - n)
  {
    if n == 0 {
      assert Shl(flag, 7) == 2 * Shl(flag, 6) == 4 * Shl(flag, 5) == 8 * Shl(flag, 4);
      assert Shl(flag, 4) == 2 * Shl(flag, 3) == 4 * Shl(flag, 2) == 8 * Shl(flag, 1) == 16 * flag;
    } else {
      ShrSnoc(v + 128 * flag, n - 1);
      ShrSnoc(v, n - 1);
      ShrAdd(v, flag, n - 1);
    }
  }

  lemma {:induction false} ShrSnoc(v: nat, n: nat)
    ensures Shr(v, n + 1) == Shr(v, n) / 2
  {
    if n > 0 {
      ShrSnoc(v / 2, n - 1);
    }
  }

  /** Adding a token to the open group. */
  lemma OpenedNext(flags: byte, bytes: seq<byte>, left: nat, ts: seq<Token>, t: Token)
    requires Opened(flags, bytes, left, ts) && 1 <= left && Packable(t)
    ensures NextFlags(flags, t) < 256
    ensures Opened(NextFlags(flags, t), bytes + Payload(t), left - 1, ts + [t])
  {
    hide Payload, Payloads, Flags;
    ShrUnit(flags, if t.Match? then 1 else 0, left - 1);
    FlagsSnoc(ts, t);
    PayloadsSnoc(ts, t);
  }

  /** The flag byte after one more token. */
  function NextFlags(flags: nat, t: Token): nat {
    flags / 2 + if t.Match? then 128 else 0
  }

  /** A full group is closed. */
  lemma CloseGroup(bytes: seq<byte>, ts: seq<Token>, flags: byte, open: seq<byte>, g: seq<Token>)
    requires Closed(bytes, ts) && Opened(flags, open, 0, g)
    ensures Closed(bytes + [flags] + open, ts + g)
  {
    hide Payloads, Flags;
    PackAppend(ts, g);
    assert bytes + [flags] + open == bytes + ([flags] + open);
  }

  /** What a token's recording does to the buffer's contents. */
  ghost predicate Recorded(bytes: seq<byte>, flagPos: nat, codePos: nat, t: Token, bytes': seq<byte>) {
    && Packable(t) && flagPos < codePos && codePos + |Payload(t)| <= |bytes| == |bytes'|
    && bytes'[..flagPos] == bytes[..flagPos]
    && bytes'[flagPos] == NextFlags(bytes[flagPos], t)
    && bytes'[flagPos + 1..codePos] == bytes[flagPos + 1..codePos]
    && bytes'[codePos..codePos + |Payload(t)|] == Payload(t)
  }

  /** The open group with the new token's payload. */
  lemma OpenGroup(bytes: seq<byte>, flagPos: nat, codePos: nat, left: nat, ts: seq<Token>, t: Token, bytes': seq<byte>)
    requires Layout(bytes, flagPos, codePos, left, ts) && Recorded(bytes, flagPos, codePos, t, bytes')
    ensures Opened(bytes'[flagPos], bytes'[flagPos + 1..codePos + |Payload(t)|], left - 1, ts[|ts| + left - 8..] + [t])
  {
    hide Payload, Closed, Opened, Shr;
    OpenedNext(bytes[flagPos], bytes[flagPos + 1..codePos], left, ts[|ts| + left - 8..], t);
    var n := codePos + |Payload(t)|;
    assert bytes'[flagPos + 1..n] == bytes'[flagPos + 1..codePos] + bytes'[codePos..n];
  }

  lemma LayoutOpen(bytes: seq<byte>, flagPos: nat, codePos: nat, left: nat, ts: seq<Token>, t: Token, bytes': seq<byte>)
    requires Layout(bytes, flagPos, codePos, left, ts) && Recorded(bytes, flagPos, codePos, t, bytes') && left > 1
    ensures Layout(bytes', flagPos, codePos + |Payload(t)|, left - 1, ts + [t])
  {
    OpenGroup(bytes, flagPos, codePos, left, ts, t, bytes');
    hide Payload, Closed, Opened;
    var k := |ts| + left - 8;
    assert (ts + [t])[..k] == ts[..k] && (ts + [t])[k..] == ts[k..] + [t];
  }

  lemma GroupsFull(bytes: seq<byte>, flagPos: nat, codePos: nat, ts: seq<Token>, t: Token, bytes': seq<byte>)
    requires Layout(bytes, flagPos, codePos, 1, ts) && Recorded(bytes, flagPos, codePos, t, bytes')
    ensures Closed(bytes'[..codePos + |Payload(t)|], ts + [t])
  {
    OpenGroup(bytes, flagPos, codePos, 1, ts, t, bytes');
    hide Payload, Closed, Opened;
    var k, n := |ts| - 7, codePos + |Payload(t)|;
    var open := bytes'[flagPos + 1..n];
    CloseGroup(bytes[..flagPos], ts[..k], bytes'[flagPos], open, ts[k..] + [t]);
    assert ts[..k] + (ts[k..] + [t]) == ts + [t];
    assert bytes'[..n] == bytes'[..flagPos] + [bytes'[flagPos]] + open;
  }

  lemma LayoutFull(bytes: seq<byte>, flagPos: nat, codePos: nat, ts: seq<Token>, t: Token, bytes': seq<byte>)
    requires Layout(bytes, flagPos, codePos, 1, ts) && Recorded(bytes, flagPos, codePos, t, bytes')
    requires codePos + |Payload(t)| < |bytes|
    ensures Layout(bytes', codePos + |Payload(t)|, codePos + |Payload(t)| + 1, 8, ts + [t])
  {
    GroupsFull(bytes, flagPos, codePos, ts, t, bytes');
    hide Payload, Closed, Opened;
    LayoutEmpty(bytes', codePos + |Payload(t)|, ts + [t]);
  }

  /** A group of which nothing has come yet. */
  lemma LayoutEmpty(bytes: seq<byte>, n: nat, ts: seq<Token>)
    requires n < |bytes| && Closed(bytes[..n], ts)
    ensures Layout(bytes, n, n + 1, 8, ts)
  {
    NothingOpen(bytes[n]);
    assert |ts| % 8 == 0;
    hide Payload, Pack, Opened;
    assert ts[..|ts|] == ts && ts[|ts|..] == [];
    assert bytes[n + 1..n + 1] == [];
  }

  lemma NothingOpen(flags: byte)
    ensures Opened(flags, [], 8, [])
  {
    Pow2Values();
    LowSmall(flags, 8);
  }

  /** Before the buffer is read: the open group's flags are moved down, and an empty group is taken back. */
  lemma LayoutClosed(bytes: seq<byte>, flagPos: nat, codePos: nat, left: nat, ts: seq<Token>, bytes': seq<byte>)
    requires Layout(bytes, flagPos, codePos, left, ts) && |bytes'| == |bytes|
    requires bytes'[..flagPos] == bytes[..flagPos] && bytes'[flagPos + 1..codePos] == bytes[flagPos + 1..codePos]
    requires bytes'[flagPos] == Shr(bytes[flagPos], left)
    ensures bytes'[..if left == 8 then codePos - 1 else codePos] == Pack(ts)
  {
    var k := |ts| + left - 8;
    hide Payloads, Flags, Pack;
    assert ts == ts[..k] + ts[k..];
    PackAppend(ts[..k], ts[k..]);
    if left == 8 {
      assert ts[k..] == [];
      assert Pack(ts) == Pack(ts[..k]) by {
        assert ts[..k] == ts;
      }
      NothingWaits(ts[k..], bytes[flagPos + 1..codePos]);
    } else {
      SmallGroup(ts[k..]);
      assert bytes'[..codePos] == bytes'[..flagPos] + ([bytes'[flagPos]] + bytes'[flagPos + 1..codePos]);
    }
  }

  lemma SmallGroup(ts: seq<Token>)
    requires AllPackable(ts) && 1 <= |ts| <= 8
    ensures Pack(ts) == Group(ts)
  {
  }

  lemma NothingWaits(ts: seq<Token>, bytes: seq<byte>)
    requires ts == [] && AllPackable(ts) && bytes == Payloads(ts)
    ensures bytes == []
  {
  }

  // ----- histograms -----

  /** The literal or length symbol a token is coded with. */
  function LitSym(t: Token): nat
    requires Packable(t)
  {
    match t
    case Literal(b) => b
    case Match(len, _) => LenSym(len - 3)
  }

  lemma LitSymSmall(t: Token)
    requires Packable(t)
    ensures LitSym(t) < 288
    ensures t.Match? ==> DistSym(t.dist - 1) < 30
  {
    if t.Match? {
      LenTables(t.len - 3);
      DistTables(t.dist - 1);
    }
  }

  /** How often literal or length symbol s is needed. */
  function LitCount(ts: seq<Token>, s: nat): nat
    requires AllPackable(ts)
  {
    if ts == [] then 0
    else LitCount(ts[..|ts| - 1], s) + if LitSym(ts[|ts| - 1]) == s then 1 else 0
  }

  /** How often distance symbol s is needed. */
  function DistCount(ts: seq<Token>, s: nat): nat
    requires AllPackable(ts)
  {
    if ts == [] then 0
    else
      var t := ts[|ts| - 1];
      DistCount(ts[..|ts| - 1], s) + if t.Match? && DistSym(t.dist - 1) == s then 1 else 0
  }

  /** The counters hold the tokens' symbol histogram. */
  ghost predicate Counted(ts: seq<Token>, lit: seq<nat>, dist: seq<nat>) {
    && AllPackable(ts) && |lit| == 288 && |dist| == 288
    && (forall s :: 0 <= s < 288 ==> lit[s] == LitCount(ts, s))
    && (forall s :: 0 <= s < 288 ==> dist[s] == DistCount(ts, s))
  }

  lemma CountedNext(ts: seq<Token>, lit: seq<nat>, dist: seq<nat>, t: Token)
    requires Counted(ts, lit, dist) && Packable(t)
    ensures LitSym(t) < 288
    ensures t.Literal? ==> Counted(ts + [t], lit[LitSym(t) := lit[LitSym(t)] + 1], dist)
    ensures t.Match? ==> DistSym(t.dist - 1) < 288
    ensures t.Match? ==> Counted(ts + [t], lit[LitSym(t) := lit[LitSym(t)] + 1],
                                 dist[DistSym(t.dist - 1) := dist[DistSym(t.dist - 1)] + 1])
  {
    assert (ts + [t])[..|ts|] == ts;
    if t.Match? {
      LenTables(t.len - 3);
      DistTables(t.dist - 1);
    }
    hide LenSym, DistSym;
  }

  /** The number of input bytes the tokens stand for. */
  function TotalLength(ts: seq<Token>): nat {
    if ts == [] then 0 else TotalLength(ts[..|ts| - 1]) + TokenLength(ts[|ts| - 1])
  }

  // ----- reading the tokens back -----

  /**
   The reader is before the tokens `rest`: j flags of the current group are left, under a marker bit, and p is the
   place of the next payload.
   */
  ghost predicate Reading(bytes: seq<byte>, p: nat, flags: nat, j: nat, rest: seq<Token>) {
    && AllPackable(rest) && j <= 8 && p <= |bytes|
    && var m := if j < |rest| then j else |rest|;
       && flags == Pow2(j) + Flags(rest[..m])
       && bytes[p..] == Payloads(rest[..m]) + Pack(rest[m..])
  }

  lemma ReadingStarts(ts: seq<Token>)
    requires AllPackable(ts)
    ensures Reading(Pack(ts), 0, 1, 0, ts)
  {
    hide Pack;
    assert ts[..0] == [] && ts[0..] == ts;
    assert Flags([]) == 0 && Payloads([]) == [];
    assert [] + Pack(ts) == Pack(ts);
  }

  /** The reader is at the end exactly when no token is left. */
  lemma ReadingMore(bytes: seq<byte>, p: nat, flags: nat, j: nat, rest: seq<Token>)
    requires Reading(bytes, p, flags, j, rest)
    ensures p < |bytes| <==> rest != []
    ensures flags == 1 <==> j == 0
  {
    Pow2Monotone(0, j);
    if j > 0 {
      Pow2Monotone(1, j);
    }
    assert bytes[p..] == [] <==> p == |bytes|;
  }

  /** A new flag byte is read. */
  lemma ReadFlags(bytes: seq<byte>, p: nat, rest: seq<Token>)
    requires Reading(bytes, p, 1, 0, rest) && rest != []
    ensures p < |bytes| && Reading(bytes, p + 1, bytes[p] as nat + 256, 8, rest)
  {
    hide Payloads, Flags;
    var m := if 8 < |rest| then 8 else |rest|;
    assert rest[..0] == [] && rest[0..] == rest;
    EmptyGroup(rest[..0]);
    PackFirst(rest, m);
    assert bytes[p..] == [Flags(rest[..m])] + (Payloads(rest[..m]) + Pack(rest[m..]));
    assert bytes[p] == bytes[p..][0];
    assert bytes[p + 1..] == bytes[p..][1..];
    Pow2Values();
  }

  lemma EmptyGroup(ts: seq<Token>)
    requires ts == []
    ensures AllPackable(ts) && Payloads(ts) == [] && Flags(ts) == 0
  {
  }

  lemma PackFirst(ts: seq<Token>, m: nat)
    requires AllPackable(ts) && ts != [] && m == if 8 < |ts| then 8 else |ts|
    ensures Flags(ts[..m]) < 256 && Pack(ts) == [Flags(ts[..m])] + Payloads(ts[..m]) + Pack(ts[m..])
  {
    GroupFlags(ts[..m]);
    if |ts| <= 8 {
      assert ts[..m] == ts && ts[m..] == [];
    }
  }

  /** The lowest flag tells the kind of the next token, whose payload is next. */
  lemma ReadToken(bytes: seq<byte>, p: nat, flags: nat, j: nat, rest: seq<Token>)
    requires Reading(bytes, p, flags, j, rest) && j > 0 && rest != []
    ensures flags % 2 == (if rest[0].Match? then 1 else 0)
    ensures p + |Payload(rest[0])| <= |bytes| && bytes[p..p + |Payload(rest[0])|] == Payload(rest[0])
    ensures Reading(bytes, p + |Payload(rest[0])|, flags / 2, j - 1, rest[1..])
  {
    var m := if j < |rest| then j else |rest|;
    var t, g := rest[0], rest[..m];
    assert g[0] == t && g[1..] == rest[1..][..m - 1];
    assert rest[1..][m - 1..] == rest[m..];
    hide Payload, Pack;
    assert Payloads(g) == Payload(t) + Payloads(g[1..]);
    assert Flags(g) == (if t.Match? then 1 else 0) + 2 * Flags(g[1..]);
    assert Pow2(j) == 2 * Pow2(j - 1);
    ReadPayload(bytes, p, Payload(t), Payloads(g[1..]), Pack(rest[m..]));
  }

  lemma ReadPayload(bytes: seq<byte>, p: nat, a: seq<byte>, b: seq<byte>, c: seq<byte>)
    requires p <= |bytes| && bytes[p..] == (a + b) + c
    ensures p + |a| <= |bytes| && bytes[p..p + |a|] == a && bytes[p + |a|..] == b + c
  {
    assert bytes[p..p + |a|] == bytes[p..][..|a|];
    assert bytes[p + |a|..] == bytes[p..][|a|..];
  }

  // ----- sizes -----

  /** Eight tokens take at least nine bytes. */
  lemma {:induction false} PackGrows(ts: seq<Token>)
    requires AllPackable(ts)
    ensures 8 * |Pack(ts)| >= 9 * |ts|
    decreases |ts|
  {
    hide Payloads, Flags;
    if ts != [] {
      var m := if 8 < |ts| then 8 else |ts|;
      PackFirst(ts, m);
      PayloadsGrow(ts[..m]);
      PackGrows(ts[m..]);
    }
  }

  lemma {:induction false} PayloadsGrow(ts: seq<Token>)
    requires AllPackable(ts)
    ensures |Payloads(ts)| >= |ts|
  {
    if ts != [] {
      PayloadsGrow(ts[1..]);
    }
  }

  lemma {:induction false} LitCountUsed(ts: seq<Token>, i: nat)
    requires AllPackable(ts) && i < |ts|
    ensures LitCount(ts, LitSym(ts[i])) > 0
    ensures ts[i].Match? ==> DistCount(ts, DistSym(ts[i].dist - 1)) > 0
  {
    hide LenSym, DistSym;
    if i < |ts| - 1 {
      LitCountUsed(ts[..|ts| - 1], i);
    }
  }

  /** Only the 256 literals, the 29 length symbols and the 30 distance symbols occur. */
  lemma {:induction false} CountsAbsent(ts: seq<Token>, s: nat)
    requires AllPackable(ts)
    ensures s == 256 || 285 < s ==> LitCount(ts, s) == 0
    ensures 30 <= s ==> DistCount(ts, s) == 0
  {
    hide LenSym, DistSym;
    if ts != [] {
      CountsAbsent(ts[..|ts| - 1], s);
      var t := ts[|ts| - 1];
      if t.Match? {
        LenTables(t.len - 3);
        DistTables(t.dist - 1);
      }
    }
  }

  const BUF_SIZE := 65536

  class TokenBuffer {
    const buf: array<byte>
    const litCounts: array<nat>
    const distCounts: array<nat>
    var codePos: nat
    var flagPos: nat
    var flagsLeft: nat
    var totalBytes: nat
    ghost var tokens: seq<Token>

    ghost predicate Valid()
      reads this, buf, litCounts, distCounts
    {
      && buf.Length == BUF_SIZE && litCounts != distCounts
      && Layout(buf[..], flagPos, codePos, flagsLeft, tokens)
      && Counted(tokens, litCounts[..], distCounts[..])
      && totalBytes == TotalLength(tokens)
    }

    lemma LayoutHolds()
      requires Valid()
      ensures Layout(buf[..], flagPos, codePos, flagsLeft, tokens)
    {
      hide Layout, Counted;
    }

    constructor ()
      ensures Valid() && tokens == [] && codePos == 1 && fresh(buf) && fresh(litCounts) && fresh(distCounts)
      ensures buf.Length == BUF_SIZE && litCounts.Length == 288 && distCounts.Length == 288 && litCounts != distCounts
    {
      buf := new byte[BUF_SIZE](_ => 0);
      litCounts := new nat[288](_ => 0);
      distCounts := new nat[288](_ => 0);
      codePos, flagPos, flagsLeft, totalBytes, tokens := 1, 0, 8, 0, [];
      new;
      NothingOpen(buf[0]);
    }

    /** Appends a literal. */
    method RecordLiteral(lit: byte)
      requires Valid() && codePos + 2 <= BUF_SIZE
      modifies this, buf, litCounts
      ensures Valid() && tokens == old(tokens) + [Literal(lit)]
      ensures codePos <= old(codePos) + 2 && (flagsLeft < 8 ==> codePos == old(codePos) + 1)
    {
      hide Layout, Counted, Recorded, Payload, TotalLength, NextFlags;
      ghost var t := Literal(lit);
      ghost var bytes := buf[..];
      totalBytes := totalBytes + 1;
      LayoutBounds(bytes, flagPos, codePos, flagsLeft, tokens);
      buf[codePos] := lit;
      codePos := codePos + 1;
      buf[flagPos] := buf[flagPos] / 2;
      LiteralRecorded(bytes, flagPos, codePos - 1, lit, buf[..]);
      NextFlag(bytes, codePos - 1, t);
      CountLiteral(lit);
      TotalSnoc(tokens, t);
      tokens := tokens + [t];
    }

    /** One flag of the open group has been used: a full group is followed by a new flag byte. */
    method NextFlag(ghost bytes: seq<byte>, ghost start: nat, ghost t: Token)
      requires buf.Length == BUF_SIZE && Layout(bytes, flagPos, start, flagsLeft, tokens)
      requires Recorded(bytes, flagPos, start, t, buf[..])
      requires codePos == start + |Payload(t)| && codePos < BUF_SIZE
      modifies `flagsLeft, `flagPos, `codePos
      ensures Layout(buf[..], flagPos, codePos, flagsLeft, tokens + [t])
      ensures codePos == old(codePos) + if flagsLeft == 8 then 1 else 0
    {
      LayoutBounds(bytes, flagPos, start, flagsLeft, tokens);
      hide *;
      if flagsLeft == 1 {
        LayoutFull(bytes, flagPos, start, tokens, t, buf[..]);
      } else {
        LayoutOpen(bytes, flagPos, start, flagsLeft, tokens, t, buf[..]);
      }
      flagsLeft := flagsLeft - 1;
      if flagsLeft == 0 {
        flagsLeft := 8;
        flagPos := codePos;
        codePos := codePos + 1;
      }
    }

    method CountLiteral(lit: byte)
      requires litCounts != distCounts && Counted(tokens, litCounts[..], distCounts[..])
      modifies litCounts
      ensures Counted(tokens + [Literal(lit)], litCounts[..], distCounts[..])
    {
      ghost var lits := litCounts[..];
      CountedNext(tokens, lits, distCounts[..], Literal(lit));
      assert |lits| == 288 && |distCounts[..]| == 288;
      litCounts[lit] := litCounts[lit] + 1;
      assert litCounts[..] == lits[lit := lits[lit] + 1];
    }

    /** Appends a match. */
    method RecordMatch(len: nat, dist: nat)
      requires Valid() && codePos + 4 <= BUF_SIZE && 3 <= len <= 258 && 1 <= dist <= 32768
      modifies this, buf, litCounts, distCounts
      ensures Valid() && tokens == old(tokens) + [Match(len, dist)]
      ensures codePos <= old(codePos) + 4 && (flagsLeft < 8 ==> codePos == old(codePos) + 3)
    {
      hide Layout, Counted, Recorded, Payload, TotalLength, NextFlags, LenSym, DistSym;
      ghost var t := Match(len, dist);
      ghost var bytes := buf[..];
      totalBytes := totalBytes + len;
      LayoutBounds(bytes, flagPos, codePos, flagsLeft, tokens);
      buf[codePos] := len - 3;
      buf[codePos + 1] := (dist - 1) % 256;
      buf[codePos + 2] := (dist - 1) / 256;
      codePos := codePos + 3;
      NextFlagsSmall(buf[flagPos], t);
      buf[flagPos] := buf[flagPos] / 2 + 128;
      MatchRecorded(bytes, flagPos, codePos - 3, len, dist, buf[..]);
      NextFlag(bytes, codePos - 3, t);
      CountMatch(len, dist);
      TotalSnoc(tokens, t);
      tokens := tokens + [t];
    }

    method CountMatch(len: nat, dist: nat)
      requires litCounts != distCounts && Counted(tokens, litCounts[..], distCounts[..])
      requires 3 <= len <= 258 && 1 <= dist <= 32768
      modifies litCounts, distCounts
      ensures Counted(tokens + [Match(len, dist)], litCounts[..], distCounts[..])
    {
      ghost var lits, dists := litCounts[..], distCounts[..];
      CountedNext(tokens, lits, dists, Match(len, dist));
      assert |lits| == 288 && |dists| == 288;
      hide LenSym, DistSym, LitCount, DistCount;
      var l, d := LenSym(len - 3), DistSym(dist - 1);
      distCounts[d] := distCounts[d] + 1;
      assert distCounts[..] == dists[d := dists[d] + 1];
      litCounts[l] := litCounts[l] + 1;
      assert litCounts[..] == lits[l := lits[l] + 1];
    }

    /** Makes the bytes up to codePos stand for exactly the tokens: stale flag bits are shifted out. */
    method Close()
      requires Valid()
      modifies `codePos, buf
      ensures AllPackable(tokens) && codePos <= buf.Length && buf[..codePos] == Pack(tokens)
    {
      ghost var bytes := buf[..];
      LayoutHolds();
      LayoutBounds(bytes, flagPos, codePos, flagsLeft, tokens);
      hide *;
      ShiftFlags();
      OneByteChanged(bytes, flagPos, codePos, buf[flagPos]);
      LayoutClosed(bytes, flagPos, codePos, flagsLeft, tokens, buf[..]);
      codePos := codePos - if flagsLeft == 8 then 1 else 0;
      PrefixOf();
    }

    lemma PrefixOf()
      requires codePos <= buf.Length
      ensures buf[..codePos] == buf[..][..codePos]
    {
    }

    /** Shifts the flags of the last, partly filled flag byte into place. */
    method ShiftFlags()
      requires flagPos < buf.Length
      modifies buf
      ensures Shr(old(buf[flagPos]), flagsLeft) < 256
      ensures buf[..] == old(buf[..])[flagPos := Shr(old(buf[flagPos]), flagsLeft)]
    {
      hide *;
      ShrSmaller(buf[flagPos], flagsLeft);
      buf[flagPos] := Shr(buf[flagPos], flagsLeft);
    }

    /** Forgets all tokens. */
    method Reset()
      requires buf.Length == BUF_SIZE && litCounts != distCounts && litCounts.Length == 288 && distCounts.Length == 288
      modifies this, litCounts, distCounts
      ensures Valid() && tokens == [] && codePos == 1 && totalBytes == 0
    {
      forall i | 0 <= i < litCounts.Length {
        litCounts[i] := 0;
      }
      forall i | 0 <= i < distCounts.Length {
        distCounts[i] := 0;
      }
      codePos, flagPos, flagsLeft, totalBytes, tokens := 1, 0, 8, 0, [];
      NothingOpen(buf[0]);
    }
  }

  lemma {:induction false} ShrSmaller(v: nat, n: nat)
    ensures Shr(v, n) <= v
  {
    if n > 0 {
      ShrSmaller(v / 2, n - 1);
    }
  }

  lemma OneByteChanged(bytes: seq<byte>, at: nat, end: nat, v: byte)
    requires at < end <= |bytes|
    ensures var b := bytes[at := v]; b[..at] == bytes[..at] && b[at + 1..end] == bytes[at + 1..end] && b[at] == v
  {
  }

  lemma LayoutBounds(bytes: seq<byte>, flagPos: nat, codePos: nat, left: nat, ts: seq<Token>)
    requires Layout(bytes, flagPos, codePos, left, ts)
    ensures flagPos < codePos <= |bytes| && 1 <= left <= 8
  {
  }

  lemma LiteralRecorded(bytes: seq<byte>, flagPos: nat, codePos: nat, lit: byte, bytes': seq<byte>)
    requires flagPos < codePos < |bytes| && bytes' == bytes[codePos := lit][flagPos := bytes[flagPos] / 2]
    ensures Recorded(bytes, flagPos, codePos, Literal(lit), bytes')
  {
  }

  lemma NextFlagsSmall(flags: byte, t: Token)
    ensures NextFlags(flags, t) < 256
  {
  }

  lemma MatchRecorded(bytes: seq<byte>, flagPos: nat, codePos: nat, len: nat, dist: nat, bytes': seq<byte>)
    requires flagPos < codePos && codePos + 3 <= |bytes| && 3 <= len <= 258 && 1 <= dist <= 32768
    requires bytes' == bytes[codePos := len - 3][codePos + 1 := (dist - 1) % 256][codePos + 2 := (dist - 1) / 256]
                       [flagPos := bytes[flagPos] / 2 + 128]
    ensures Recorded(bytes, flagPos, codePos, Match(len, dist), bytes')
  {
    var p := Payload(Match(len, dist));
    assert bytes'[codePos..codePos + 3] == [bytes'[codePos], bytes'[codePos + 1], bytes'[codePos + 2]];
  }

  lemma TotalSnoc(ts: seq<Token>, t: Token)
    ensures TotalLength(ts + [t]) == TotalLength(ts) + TokenLength(t)
  {
    assert (ts + [t])[..|ts|] == ts;
  }
}
