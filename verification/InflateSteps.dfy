/** Each step of the decoder keeps what remains to be read on the way to the goal. */
module InflateSteps {
  import opened Bits
  import opened Deflate
  import opened TableDecoding
  import opened InflateSpec
  import opened SymbolReader

  // ----- goals -----

  /** r is the reading g, clean if that is. */
  ghost predicate Same(g: Reading, r: Reading) {
    if g.Complete? then r.Complete? && r.out == g.out && r.pos == g.pos && (g.clean ==> r.clean) else r == g
  }

  /** What the whole stream comes to is r. Without a goal anything may happen. */
  ghost predicate Leads(goal: Option<Reading>, r: Reading) {
    goal.Some? ==> Same(goal.value, r)
  }

  /** What r, the rest of a block, leads to. */
  ghost predicate Toward(goal: Option<Reading>, fin: bool, s: seq<bool>, r: Reading) {
    Leads(goal, Then(fin, s, r))
  }

  /** The stream has an end. */
  ghost predicate Finite(goal: Option<Reading>) {
    goal.Some? && goal.value.Complete?
  }

  /** The stream decodes by the format. */
  ghost predicate Good(goal: Option<Reading>) {
    Finite(goal) && goal.value.clean
  }

  /** If the stream decodes by the format, its end is at e or later. */
  ghost predicate Reaches(goal: Option<Reading>, e: int) {
    Good(goal) ==> e <= goal.value.pos
  }

  /** Unless the stream is refused, there is this output. */
  ghost predicate Promises(goal: Option<Reading>, out: seq<byte>) {
    goal.Some? && (goal.value.Complete? || goal.value.Short?) ==> out <= goal.value.out
  }

  /** If the stream has an end, there is more output than this. */
  ghost predicate Wants(goal: Option<Reading>, out: seq<byte>) {
    Finite(goal) ==> |out| < |goal.value.out|
  }

  /** The stream is refused. */
  ghost predicate Fails(goal: Option<Reading>) {
    goal.Some? ==> goal.value.Wrong? || goal.value.Before?
  }

  /** The stream is too short, and this is all of its output. */
  ghost predicate Lacks(goal: Option<Reading>, out: seq<byte>) {
    goal.Some? ==> goal.value == Short(out)
  }

  lemma TowardFails(goal: Option<Reading>, fin: bool, s: seq<bool>, r: Reading)
    requires Toward(goal, fin, s, r) && (r.Wrong? || r.Before?)
    ensures Fails(goal)
  {
  }

  lemma TowardLacks(goal: Option<Reading>, fin: bool, s: seq<bool>, out: seq<byte>)
    requires Toward(goal, fin, s, Short(out))
    ensures Lacks(goal, out)
  {
  }

  lemma TowardReaches(goal: Option<Reading>, fin: bool, s: seq<bool>, r: Reading, pos: nat, out: seq<byte>)
    requires Toward(goal, fin, s, r) && Onward(r, pos, out)
    ensures Reaches(goal, pos) && Promises(goal, out)
  {
    hide TableBlocks;
    ThenOnward(fin, s, r, pos, out);
  }

  lemma TowardMark(goal: Option<Reading>, fin: bool, s: seq<bool>, clean: bool, r: Reading)
    requires Toward(goal, fin, s, Mark(clean, r))
    ensures Toward(goal, fin, s, r) && (Good(goal) ==> clean)
  {
    hide TableBlocks;
  }

  // ----- blocks -----

  lemma BlockStarts(goal: Option<Reading>, s: seq<bool>, pos: nat, out: seq<byte>, h: nat)
    requires Leads(goal, TableBlocks(s, pos, out)) && Field(s, pos, 3) == Some(h)
    ensures Toward(goal, h % 2 == 1, s, TableBlock(h / 2, s, pos + 3, out))
  {
    hide TableBlock, BitsNat, Then, TableBlocks;
    BlockHeader(s, pos, out, h);
  }

  lemma BlockWaits(goal: Option<Reading>, s: seq<bool>, pos: nat, out: seq<byte>)
    requires Leads(goal, TableBlocks(s, pos, out))
    ensures Reaches(goal, pos + 3) && Promises(goal, out)
    ensures pos + 3 > |s| ==> Lacks(goal, out)
  {
    hide TableBlock;
    BlocksOnward(s, pos, out);
  }

  /** The kinds of blocks. */
  lemma BlockKinds(s: seq<bool>, pos: nat, out: seq<byte>, kind: nat)
    ensures TableBlock(0, s, pos, out) == TableStored(s, Aligned(pos), out)
    ensures TableBlock(1, s, pos, out) == TableBody(StaticLit(), StaticDist(), s, pos, out)
    ensures TableBlock(2, s, pos, out) == TableDynamic(s, pos, out)
    ensures kind > 2 ==> TableBlock(kind, s, pos, out) == Wrong
  {
    hide TableBody, TableDynamic, TableStored;
  }

  /** The end of a block. */
  lemma BlockEnds(goal: Option<Reading>, fin: bool, s: seq<bool>, pos: nat, out: seq<byte>)
    requires Toward(goal, fin, s, Complete(out, pos, true))
    ensures fin ==> Leads(goal, Complete(out, pos, true))
    ensures !fin ==> Leads(goal, TableBlocks(s, pos, out))
  {
    hide TableBlocks;
  }

  // ----- stored blocks -----

  /** Two bytes make a number. */
  lemma TwoBytes(s: seq<bool>, pos: nat, a: nat, b: nat)
    requires Field(s, pos, 8) == Some(a) && Field(s, pos + 8, 8) == Some(b) && a < 256
    ensures Field(s, pos, 16) == Some(a + 256 * b)
  {
    hide BitsNat;
    var x, y := s[pos..pos + 8], s[pos + 8..pos + 16];
    assert s[pos..pos + 16] == x + y;
    BitsNatAppend(x, y);
    EightTimes(b);
  }

  lemma {:induction false} BitsNatAppend(x: seq<bool>, y: seq<bool>)
    ensures BitsNat(x + y) == BitsNat(x) + Shl(BitsNat(y), |x|)
  {
    if x == [] {
      assert x + y == y;
    } else {
      BitsNatAppend(x[1..], y);
      assert (x + y)[1..] == x[1..] + y;
    }
  }

  lemma StoredHeaderRead(goal: Option<Reading>, fin: bool, s: seq<bool>, pos: nat, out: seq<byte>, a: nat, b: nat,
                         c: nat, d: nat)
    requires Toward(goal, fin, s, TableStored(s, pos, out))
    requires Field(s, pos, 8) == Some(a) && Field(s, pos + 8, 8) == Some(b) && a < 256
    requires Field(s, pos + 16, 8) == Some(c) && Field(s, pos + 24, 8) == Some(d) && c < 256
    ensures a + 256 * b + (c + 256 * d) != 65535 ==> Fails(goal)
    ensures a + 256 * b + (c + 256 * d) == 65535 ==> Toward(goal, fin, s, TableBytes(s, pos + 32, out, a + 256 * b))
  {
    hide TableBytes, Field, TableStored, Toward, Fails;
    TwoBytes(s, pos, a, b);
    TwoBytes(s, pos + 16, c, d);
    StoredIs(s, pos, out, a + 256 * b, c + 256 * d);
    if a + 256 * b + (c + 256 * d) != 65535 {
      TowardFails(goal, fin, s, Wrong);
    }
  }

  lemma StoredIs(s: seq<bool>, pos: nat, out: seq<byte>, len: nat, nlen: nat)
    requires Field(s, pos, 16) == Some(len) && Field(s, pos + 16, 16) == Some(nlen)
    ensures TableStored(s, pos, out) == if len + nlen != 65535 then Wrong else TableBytes(s, pos + 32, out, len)
  {
    hide TableBytes, Field;
  }

  lemma StoredWaits(goal: Option<Reading>, fin: bool, s: seq<bool>, pos: nat, out: seq<byte>)
    requires Toward(goal, fin, s, TableStored(s, pos, out))
    ensures Reaches(goal, pos + 32) && Promises(goal, out)
    ensures pos + 32 > |s| ==> Lacks(goal, out)
  {
    hide TableStored, Toward, Lacks, Reaches, Promises;
    StoredOnward(s, pos, out);
    TowardReaches(goal, fin, s, TableStored(s, pos, out), pos + 32, out);
    if pos + 32 > |s| {
      TowardLacks(goal, fin, s, out);
    }
  }

  lemma ByteIsField(s: seq<bool>, pos: nat, b: nat)
    requires Field(s, pos, 8) == Some(b)
    ensures pos + 8 <= |s| && b < 256 && ByteAt(s, pos) == b
  {
    BitsNatBound(s[pos..pos + 8]);
    Pow2Values();
    hide BitsNat;
  }

  lemma StoredByteRead(goal: Option<Reading>, fin: bool, s: seq<bool>, pos: nat, out: seq<byte>, n: nat, b: nat)
    requires Toward(goal, fin, s, TableBytes(s, pos, out, n)) && n > 0 && Field(s, pos, 8) == Some(b)
    ensures b < 256 && Toward(goal, fin, s, TableBytes(s, pos + 8, out + [b], n - 1))
  {
    ByteIsField(s, pos, b);
    hide Field, Toward, BitsNat, ByteAt;
  }

  lemma StoredBytesWait(goal: Option<Reading>, fin: bool, s: seq<bool>, pos: nat, out: seq<byte>, n: nat)
    requires Toward(goal, fin, s, TableBytes(s, pos, out, n))
    ensures Reaches(goal, pos + 8 * n) && Promises(goal, out)
    ensures n > 0 && pos + 8 > |s| ==> Lacks(goal, out)
  {
    hide Toward, Lacks, Reaches, Promises;
    BytesOnward(s, pos, out, n);
    TowardReaches(goal, fin, s, TableBytes(s, pos, out, n), pos + 8 * n, out);
    if n > 0 && pos + 8 > |s| {
      TowardLacks(goal, fin, s, out);
    }
  }

  // ----- block bodies -----

  lemma SymbolRead(goal: Option<Reading>, fin: bool, ll: seq<nat>, d: seq<nat>, s: seq<bool>, pos: nat,
                   out: seq<byte>, sym: nat, len: nat)
    requires Toward(goal, fin, s, TableBody(ll, d, s, pos, out)) && Right(ll, s, pos, sym, len)
    ensures Toward(goal, fin, s, AtSymbol(ll, d, s, pos + len, out, sym))
  {
    hide TableBody, AtSymbol, TakenAt, Toward;
    BodyStep(ll, d, s, pos, out);
    TowardMark(goal, fin, s, TakenAt(ll, s, pos).value.clean, AtSymbol(ll, d, s, pos + len, out, sym));
  }

  /** After the symbol that is taken here, if any, comes r; the decoder waits for it. */
  lemma LookupWaits(goal: Option<Reading>, fin: bool, s: seq<bool>, lens: seq<nat>, pos: nat, out: seq<byte>, n: nat,
                    r: Reading)
    requires Beyond(lens, s, pos, n) && Onward(r, pos, out)
    requires Toward(goal, fin, s, match TakenAt(lens, s, pos) case None => Short(out) case Some(t) => Mark(t.clean, r))
    requires TakenAt(lens, s, pos).Some? ==> Onward(r, pos + TakenAt(lens, s, pos).value.len, out)
    ensures Reaches(goal, pos + n + 1) && Promises(goal, out)
    ensures pos + n == |s| ==> Lacks(goal, out)
  {
    hide TakenAt, Toward, Beyond, Onward;
    match TakenAt(lens, s, pos)
    case None =>
      TowardLacks(goal, fin, s, out);
    case Some(t) =>
      TowardMark(goal, fin, s, t.clean, r);
      TowardReaches(goal, fin, s, r, pos + t.len, out);
      if Good(goal) {
        BeyondCode(lens, s, pos, n);
      }
      if pos + n == |s| {
        BeyondEnd(lens, s, pos, n);
      }
  }

  lemma SymbolWaits(goal: Option<Reading>, fin: bool, ll: seq<nat>, d: seq<nat>, s: seq<bool>, pos: nat,
                    out: seq<byte>, n: nat)
    requires Toward(goal, fin, s, TableBody(ll, d, s, pos, out)) && Beyond(ll, s, pos, n)
    ensures Reaches(goal, pos + n + 1) && Promises(goal, out)
    ensures pos + n == |s| ==> Lacks(goal, out)
  {
    hide TableBody, AtSymbol, TakenAt, Toward, Beyond, Reaches, Promises, Lacks, Onward;
    BodyStep(ll, d, s, pos, out);
    match TakenAt(ll, s, pos)
    case None =>
      ShortOnward(pos, out);
      LookupWaits(goal, fin, s, ll, pos, out, n, Short(out));
    case Some(t) =>
      AtSymbolOnward(ll, d, s, pos + t.len, out, t.sym);
      OnwardFrom(AtSymbol(ll, d, s, pos + t.len, out, t.sym), pos + t.len, pos, out);
      LookupWaits(goal, fin, s, ll, pos, out, n, AtSymbol(ll, d, s, pos + t.len, out, t.sym));
  }

  lemma ShortOnward(pos: nat, out: seq<byte>)
    ensures Onward(Short(out), pos, out)
  {
  }

  lemma OnwardFrom(r: Reading, p: nat, pos: nat, out: seq<byte>)
    requires Onward(r, p, out) && pos <= p
    ensures Onward(r, pos, out)
  {
  }

  lemma AtSymbolOnward(ll: seq<nat>, d: seq<nat>, s: seq<bool>, pos: nat, out: seq<byte>, sym: nat)
    ensures Onward(AtSymbol(ll, d, s, pos, out, sym), pos, out)
  {
    hide TableBody, AtLenExtra, LengthBaseAt, LengthExtraAt;
    if sym < 256 {
      BodyOnward(ll, d, s, pos, out + [sym]);
    } else if 257 <= sym < 288 {
      AtLenExtraOnward(ll, d, s, pos, out, LengthBaseAt(sym - 257), LengthExtraAt(sym - 257));
    }
  }

  /** No distance is beyond 32768. */
  lemma DistBounds(i: nat)
    requires i < 32
    ensures DistBaseAt(i) + Pow2(DistExtraAt(i)) <= 32769
  {
    Pow2Values();
    Pow2More();
    if i < 16 {
      assert DistExtraAt(i) <= 6 && DistBaseAt(i) <= 193;
      Pow2Monotone(DistExtraAt(i), 6);
    } else {
      DistBoundsHigh(i);
    }
  }

  lemma Pow2More()
    ensures Pow2(11) == 2048 && Pow2(12) == 4096
  {
    assert Pow2(12) == 4096;
  }

  lemma DistBoundsHigh(i: nat)
    requires 16 <= i < 32
    ensures DistBaseAt(i) + Pow2(DistExtraAt(i)) <= 32769
  {
    Pow2Values();
    Pow2More();
    if i < 28 {
      assert DistExtraAt(i) <= 12 && DistBaseAt(i) <= 12289;
      Pow2Monotone(DistExtraAt(i), 12);
    }
  }

  /** What a symbol stands for. */
  lemma SymbolMeans(goal: Option<Reading>, fin: bool, ll: seq<nat>, d: seq<nat>, s: seq<bool>, pos: nat,
                    out: seq<byte>, sym: nat)
    requires Toward(goal, fin, s, AtSymbol(ll, d, s, pos, out, sym)) && sym < 288
    ensures sym < 256 ==> Toward(goal, fin, s, TableBody(ll, d, s, pos, out + [sym]))
    ensures sym == 256 ==> Toward(goal, fin, s, Complete(out, pos, true))
    ensures sym > 256 ==> Toward(goal, fin, s,
        AtLenExtra(ll, d, s, pos, out, LengthBaseAt(sym - 257), LengthExtraAt(sym - 257)))
  {
    hide TableBody, AtLenExtra, Toward;
    if sym > 256 {
      TowardMark(goal, fin, s, sym <= 285,
        AtLenExtra(ll, d, s, pos, out, LengthBaseAt(sym - 257), LengthExtraAt(sym - 257)));
    }
  }

  lemma LengthKnown(goal: Option<Reading>, fin: bool, ll: seq<nat>, d: seq<nat>, s: seq<bool>, pos: nat,
                    out: seq<byte>, base: nat, extra: nat, v: nat)
    requires Toward(goal, fin, s, AtLenExtra(ll, d, s, pos, out, base, extra)) && Field(s, pos, extra) == Some(v)
    ensures Toward(goal, fin, s, AtDist(ll, d, s, pos + extra, out, base + v))
  {
    hide AtDist, Field, Toward;
  }

  lemma LengthWaits(goal: Option<Reading>, fin: bool, ll: seq<nat>, d: seq<nat>, s: seq<bool>, pos: nat,
                    out: seq<byte>, base: nat, extra: nat)
    requires Toward(goal, fin, s, AtLenExtra(ll, d, s, pos, out, base, extra))
    ensures Reaches(goal, pos + extra) && Promises(goal, out)
    ensures pos + extra > |s| ==> Lacks(goal, out)
  {
    hide AtDist, Toward, Lacks, Reaches, Promises;
    AtLenExtraOnward(ll, d, s, pos, out, base, extra);
    TowardReaches(goal, fin, s, AtLenExtra(ll, d, s, pos, out, base, extra), pos + extra, out);
    if pos + extra > |s| {
      TowardLacks(goal, fin, s, out);
    }
  }

  lemma DistRead(goal: Option<Reading>, fin: bool, ll: seq<nat>, d: seq<nat>, s: seq<bool>, pos: nat, out: seq<byte>,
                 len: nat, t: nat, n: nat)
    requires Toward(goal, fin, s, AtDist(ll, d, s, pos, out, len)) && Right(d, s, pos, t, n) && t < 32
    ensures Toward(goal, fin, s, AtDistExtra(ll, d, s, pos + n, out, len, DistBaseAt(t), DistExtraAt(t)))
  {
    hide AtDistExtra, TakenAt, Toward, DistBaseAt, DistExtraAt;
    TowardMark(goal, fin, s, TakenAt(d, s, pos).value.clean,
      AtDistExtra(ll, d, s, pos + n, out, len, DistBaseAt(t), DistExtraAt(t)));
  }

  lemma DistWaits(goal: Option<Reading>, fin: bool, ll: seq<nat>, d: seq<nat>, s: seq<bool>, pos: nat,
                  out: seq<byte>, len: nat, n: nat)
    requires Toward(goal, fin, s, AtDist(ll, d, s, pos, out, len)) && Beyond(d, s, pos, n) && |d| <= 32
    ensures Reaches(goal, pos + n + 1) && Promises(goal, out)
    ensures pos + n == |s| ==> Lacks(goal, out)
  {
    hide AtDistExtra, TakenAt, Toward, Beyond, Reaches, Promises, Lacks, Onward, DistBaseAt, DistExtraAt;
    match TakenAt(d, s, pos)
    case None =>
      ShortOnward(pos, out);
      LookupWaits(goal, fin, s, d, pos, out, n, Short(out));
    case Some(t) =>
      var r := AtDistExtra(ll, d, s, pos + t.len, out, len, DistBaseAt(t.sym), DistExtraAt(t.sym));
      AtDistExtraOnward(ll, d, s, pos + t.len, out, len, DistBaseAt(t.sym), DistExtraAt(t.sym));
      OnwardFrom(r, pos + t.len + DistExtraAt(t.sym), pos + t.len, out);
      OnwardFrom(r, pos + t.len, pos, out);
      LookupWaits(goal, fin, s, d, pos, out, n, r);
  }

  lemma DistKnown(goal: Option<Reading>, fin: bool, ll: seq<nat>, d: seq<nat>, s: seq<bool>, pos: nat,
                  out: seq<byte>, len: nat, base: nat, extra: nat, v: nat)
    requires Toward(goal, fin, s, AtDistExtra(ll, d, s, pos, out, len, base, extra)) && Field(s, pos, extra) == Some(v)
    ensures Toward(goal, fin, s, AtCopy(ll, d, s, pos + extra, out, len, base + v))
  {
    hide AtCopy, Field, Toward;
  }

  lemma DistExtraWaits(goal: Option<Reading>, fin: bool, ll: seq<nat>, d: seq<nat>, s: seq<bool>, pos: nat,
                       out: seq<byte>, len: nat, base: nat, extra: nat)
    requires Toward(goal, fin, s, AtDistExtra(ll, d, s, pos, out, len, base, extra))
    ensures Reaches(goal, pos + extra) && Promises(goal, out)
    ensures pos + extra > |s| ==> Lacks(goal, out)
  {
    hide AtCopy, Toward, Lacks, Reaches, Promises;
    AtDistExtraOnward(ll, d, s, pos, out, len, base, extra);
    TowardReaches(goal, fin, s, AtDistExtra(ll, d, s, pos, out, len, base, extra), pos + extra, out);
    if pos + extra > |s| {
      TowardLacks(goal, fin, s, out);
    }
  }

  lemma CopyKnown(goal: Option<Reading>, fin: bool, ll: seq<nat>, d: seq<nat>, s: seq<bool>, pos: nat,
                  out: seq<byte>, len: nat, dist: nat)
    requires Toward(goal, fin, s, AtCopy(ll, d, s, pos, out, len, dist))
    ensures !(1 <= dist <= |out|) ==> goal.Some? ==> goal.value.Before?
    ensures 1 <= dist <= |out| ==> Toward(goal, fin, s, TableBody(ll, d, s, pos, Copy(out, len, dist)))
  {
    hide TableBody, Copy, TableBlocks;
  }

  lemma BodyWaits(goal: Option<Reading>, fin: bool, ll: seq<nat>, d: seq<nat>, s: seq<bool>, pos: nat, out: seq<byte>)
    requires Toward(goal, fin, s, TableBody(ll, d, s, pos, out))
    ensures Reaches(goal, pos) && Promises(goal, out)
  {
    hide TableBody, Toward;
    BodyOnward(ll, d, s, pos, out);
    TowardReaches(goal, fin, s, TableBody(ll, d, s, pos, out), pos, out);
  }

  // ----- the header of a dynamic block -----

  lemma CountsRead(goal: Option<Reading>, fin: bool, s: seq<bool>, pos: nat, out: seq<byte>, a: nat, b: nat, c: nat)
    requires Toward(goal, fin, s, TableDynamic(s, pos, out))
    requires Field(s, pos, 5) == Some(a) && Field(s, pos + 5, 5) == Some(b) && Field(s, pos + 10, 4) == Some(c)
    ensures Toward(goal, fin, s, AtCl(s, pos + 14, out, a + 257, b + 1, c + 4, Repeat(0, 19), 0))
  {
    hide TableDynamic, AtCl, BitsNat, Repeat, Toward;
    DynamicSteps(s, pos, out, a, b, c);
  }

  lemma CountsWait(goal: Option<Reading>, fin: bool, s: seq<bool>, pos: nat, out: seq<byte>)
    requires Toward(goal, fin, s, TableDynamic(s, pos, out))
    ensures Reaches(goal, pos + 14) && Promises(goal, out)
    ensures pos + 14 > |s| ==> Lacks(goal, out)
  {
    hide TableDynamic, Toward, AtCl, BitsNat, Repeat, Lacks, Reaches, Promises;
    DynamicOnward(s, pos, out);
    TowardReaches(goal, fin, s, TableDynamic(s, pos, out), pos + 14, out);
    if pos + 14 > |s| {
      DynamicSteps(s, pos, out, 0, 0, 0);
      TowardLacks(goal, fin, s, out);
    }
  }

  lemma ClRead(goal: Option<Reading>, fin: bool, s: seq<bool>, pos: nat, out: seq<byte>, nLit: nat, nDist: nat,
               nCl: nat, cl: seq<nat>, i: nat, v: nat)
    requires |cl| == 19 && i < nCl <= 19 && Toward(goal, fin, s, AtCl(s, pos, out, nLit, nDist, nCl, cl, i))
    requires Field(s, pos + 3 * i, 3) == Some(v)
    ensures Toward(goal, fin, s, AtCl(s, pos, out, nLit, nDist, nCl, cl[Order(i) := v], i + 1))
  {
    hide AtCl, Field, Order, Toward;
    ClStep(s, pos, out, nLit, nDist, nCl, cl, i);
  }

  lemma ClWaits(goal: Option<Reading>, fin: bool, s: seq<bool>, pos: nat, out: seq<byte>, nLit: nat, nDist: nat,
                nCl: nat, cl: seq<nat>, i: nat)
    requires |cl| == 19 && i < nCl <= 19 && Toward(goal, fin, s, AtCl(s, pos, out, nLit, nDist, nCl, cl, i))
    ensures Reaches(goal, pos + 3 * nCl) && Promises(goal, out)
    ensures pos + 3 * i + 3 > |s| ==> Lacks(goal, out)
  {
    hide AtCl, Toward, Order, Lacks, Reaches, Promises;
    AtClOnward(s, pos, out, nLit, nDist, nCl, cl, i);
    TowardReaches(goal, fin, s, AtCl(s, pos, out, nLit, nDist, nCl, cl, i), pos + 3 * nCl, out);
    if pos + 3 * i + 3 > |s| {
      ClStep(s, pos, out, nLit, nDist, nCl, cl, i);
      TowardLacks(goal, fin, s, out);
    }
  }

  lemma ClDone(goal: Option<Reading>, fin: bool, s: seq<bool>, pos: nat, out: seq<byte>, nLit: nat, nDist: nat,
               nCl: nat, cl: seq<nat>)
    requires |cl| == 19 && nCl <= 19 && Toward(goal, fin, s, AtCl(s, pos, out, nLit, nDist, nCl, cl, nCl))
    ensures !CodeOk(cl) ==> Fails(goal)
    ensures CodeOk(cl) ==> Toward(goal, fin, s, AtLengths(s, pos + 3 * nCl, out, nLit, nDist, cl, []))
  {
    hide AtCl, AtLengths, CodeOk, AfterCl, Toward, Fails;
    ClStep(s, pos, out, nLit, nDist, nCl, cl, nCl);
    AfterClIs(s, pos + 3 * nCl, out, nLit, nDist, cl);
    if !CodeOk(cl) {
      TowardFails(goal, fin, s, Wrong);
    }
  }

  lemma LengthSymbolRead(goal: Option<Reading>, fin: bool, s: seq<bool>, pos: nat, out: seq<byte>, nLit: nat,
                         nDist: nat, cl: seq<nat>, lens: seq<nat>, sym: nat, n: nat)
    requires Toward(goal, fin, s, AtLengths(s, pos, out, nLit, nDist, cl, lens)) && |lens| < nLit + nDist
    requires Right(cl, s, pos, sym, n)
    ensures sym < 16 ==> Toward(goal, fin, s, AtLengths(s, pos + n, out, nLit, nDist, cl, lens + [sym]))
    ensures sym == 16 && lens == [] ==> Fails(goal)
    ensures 16 <= sym <= 18 && (sym == 16 ==> lens != [])
        ==> Toward(goal, fin, s, AtRun(s, pos + n, out, nLit, nDist, cl, lens, sym))
  {
    hide AtLengths, AtRun, TakenAt, Toward, Fails;
    LengthsStep(s, pos, out, nLit, nDist, cl, lens);
    TowardMark(goal, fin, s, TakenAt(cl, s, pos).value.clean,
      AtLengthSymbol(s, pos + n, out, nLit, nDist, cl, lens, sym));
    if sym == 16 && lens == [] {
      TowardFails(goal, fin, s, Wrong);
    }
  }

  lemma LengthSymbolWaits(goal: Option<Reading>, fin: bool, s: seq<bool>, pos: nat, out: seq<byte>, nLit: nat,
                          nDist: nat, cl: seq<nat>, lens: seq<nat>, n: nat)
    requires Toward(goal, fin, s, AtLengths(s, pos, out, nLit, nDist, cl, lens)) && |lens| < nLit + nDist
    requires Beyond(cl, s, pos, n)
    ensures Reaches(goal, pos + n + 1) && Promises(goal, out)
    ensures pos + n == |s| ==> Lacks(goal, out)
  {
    hide AtLengths, AtLengthSymbol, TakenAt, Toward, Beyond, Reaches, Promises, Lacks, Onward;
    LengthsStep(s, pos, out, nLit, nDist, cl, lens);
    match TakenAt(cl, s, pos)
    case None =>
      ShortOnward(pos, out);
      LookupWaits(goal, fin, s, cl, pos, out, n, Short(out));
    case Some(t) =>
      var r := AtLengthSymbol(s, pos + t.len, out, nLit, nDist, cl, lens, t.sym);
      AtLengthSymbolOnward(s, pos + t.len, out, nLit, nDist, cl, lens, t.sym);
      OnwardFrom(r, pos + t.len, pos, out);
      LookupWaits(goal, fin, s, cl, pos, out, n, r);
  }

  lemma AtLengthSymbolOnward(s: seq<bool>, pos: nat, out: seq<byte>, nLit: nat, nDist: nat, cl: seq<nat>,
                             lens: seq<nat>, sym: nat)
    ensures Onward(AtLengthSymbol(s, pos, out, nLit, nDist, cl, lens, sym), pos, out)
  {
    hide AtLengths, AtRun;
    if sym < 16 {
      AtLengthsOnward(s, pos, out, nLit, nDist, cl, lens + [sym]);
    } else if sym <= 18 {
      AtRunOnward(s, pos, out, nLit, nDist, cl, lens, sym);
    }
  }

  lemma RunRead(goal: Option<Reading>, fin: bool, s: seq<bool>, pos: nat, out: seq<byte>, nLit: nat, nDist: nat,
                cl: seq<nat>, lens: seq<nat>, sym: nat, v: nat)
    requires Toward(goal, fin, s, AtRun(s, pos, out, nLit, nDist, cl, lens, sym))
    requires Field(s, pos, RunBits(sym)) == Some(v)
    ensures Toward(goal, fin, s, AtLengths(s, pos + RunBits(sym), out, nLit, nDist, cl,
              lens + Repeat(if sym == 16 && lens != [] then lens[|lens| - 1] else 0, v + RunBase(sym))))
  {
    hide AtLengths, Field, Repeat, RunBits, RunBase, Toward;
  }

  lemma RunWaits(goal: Option<Reading>, fin: bool, s: seq<bool>, pos: nat, out: seq<byte>, nLit: nat, nDist: nat,
                 cl: seq<nat>, lens: seq<nat>, sym: nat)
    requires Toward(goal, fin, s, AtRun(s, pos, out, nLit, nDist, cl, lens, sym))
    ensures Reaches(goal, pos + RunBits(sym)) && Promises(goal, out)
    ensures pos + RunBits(sym) > |s| ==> Lacks(goal, out)
  {
    hide AtLengths, Toward, RunBits, Lacks, Reaches, Promises, Repeat;
    AtRunOnward(s, pos, out, nLit, nDist, cl, lens, sym);
    TowardReaches(goal, fin, s, AtRun(s, pos, out, nLit, nDist, cl, lens, sym), pos + RunBits(sym), out);
    if pos + RunBits(sym) > |s| {
      TowardLacks(goal, fin, s, out);
    }
  }

  lemma LengthsDone(goal: Option<Reading>, fin: bool, s: seq<bool>, pos: nat, out: seq<byte>, nLit: nat, nDist: nat,
                    cl: seq<nat>, lens: seq<nat>)
    requires Toward(goal, fin, s, AtLengths(s, pos, out, nLit, nDist, cl, lens)) && |lens| >= nLit + nDist
    ensures |lens| != nLit + nDist ==> Fails(goal)
    ensures |lens| == nLit + nDist && (!CodeOk(lens[nLit..]) || !CodeOk(lens[..nLit])) ==> Fails(goal)
    ensures |lens| == nLit + nDist && CodeOk(lens[nLit..]) && CodeOk(lens[..nLit])
      ==> Toward(goal, fin, s, TableBody(lens[..nLit], lens[nLit..], s, pos, out))
  {
    hide AtLengths, TableBody, CodeOk, Toward, Fails;
    LengthsEnd(s, pos, out, nLit, nDist, cl, lens);
    if |lens| != nLit + nDist || !CodeOk(lens[nLit..]) || !CodeOk(lens[..nLit]) {
      TowardFails(goal, fin, s, Wrong);
    }
  }
}
