/** What remains to be read at each point where the decoder can stop: the reading of the tables, cut into steps. */
module InflateSpec {
  import opened Bits
  import opened Deflate
  import opened TableDecoding

  // ----- after a block -----

  /** Goes on after a block. */
  ghost function Then(fin: bool, s: seq<bool>, r: Reading): Reading {
    if !r.Complete? || fin then r else Mark(r.clean, TableBlocks(s, r.pos, r.out))
  }

  /** A block header: the final bit and the type. */
  lemma BlockHeader(s: seq<bool>, pos: nat, out: seq<byte>, h: nat)
    requires pos + 3 <= |s| && h == BitsNat(s[pos..pos + 3])
    ensures TableBlocks(s, pos, out) == Then(h % 2 == 1, s, TableBlock(h / 2, s, pos + 3, out))
  {
    HeaderValue(s[pos..pos + 3]);
    assert s[pos..pos + 3][1..] == s[pos + 1..pos + 3];
    assert s[pos..pos + 3][0] == s[pos];
    hide TableBlock;
  }

  lemma HeaderValue(b: seq<bool>)
    requires |b| == 3
    ensures BitsNat(b) % 2 == (if b[0] then 1 else 0) && BitsNat(b) / 2 == BitsNat(b[1..])
  {
  }

  // ----- matches -----

  /** The distance is known. */
  ghost function AtCopy(ll: seq<nat>, d: seq<nat>, s: seq<bool>, pos: nat, out: seq<byte>, len: nat,
                        dist: nat): Reading
  {
    if dist == 0 || dist > |out| then Before else TableBody(ll, d, s, pos, Copy(out, len, dist))
  }

  /** The length and the distance symbol are known. */
  ghost function AtDistExtra(ll: seq<nat>, d: seq<nat>, s: seq<bool>, pos: nat, out: seq<byte>, len: nat, base: nat,
                             extra: nat): Reading
  {
    match Extended(base, extra, s, pos)
    case None => Short(out)
    case Some((dist, p)) => AtCopy(ll, d, s, p, out, len, dist)
  }

  /** The length is known. */
  ghost function AtDist(ll: seq<nat>, d: seq<nat>, s: seq<bool>, pos: nat, out: seq<byte>, len: nat): Reading {
    match TakenAt(d, s, pos)
    case None => Short(out)
    case Some(t) =>
      if t.sym >= 32 then Short(out)
      else Mark(t.clean, AtDistExtra(ll, d, s, pos + t.len, out, len, DistBaseAt(t.sym), DistExtraAt(t.sym)))
  }

  /** The length symbol is known. */
  ghost function AtLenExtra(ll: seq<nat>, d: seq<nat>, s: seq<bool>, pos: nat, out: seq<byte>, base: nat,
                            extra: nat): Reading
  {
    match Extended(base, extra, s, pos)
    case None => Short(out)
    case Some((len, p)) => AtDist(ll, d, s, p, out, len)
  }

  /** What a literal or length symbol leads to. */
  ghost function AtSymbol(ll: seq<nat>, d: seq<nat>, s: seq<bool>, pos: nat, out: seq<byte>, sym: nat): Reading {
    if sym < 256 then TableBody(ll, d, s, pos, out + [sym])
    else if sym == 256 then Complete(out, pos, true)
    else if sym >= 288 then Wrong
    else Mark(sym <= 285, AtLenExtra(ll, d, s, pos, out, LengthBaseAt(sym - 257), LengthExtraAt(sym - 257)))
  }

  lemma MatchSteps(ll: seq<nat>, d: seq<nat>, s: seq<bool>, pos: nat, out: seq<byte>, sym: nat)
    requires 257 <= sym < 288
    ensures AtSymbol(ll, d, s, pos, out, sym)
         == match MatchTaken(d, sym, s, pos)
            case None => Short(out)
            case Some(m) => Mark(m.clean, AtCopy(ll, d, s, m.pos, out, m.len, m.dist))
  {
    hide TableBody, Copy, Extended, TakenAt, LengthBaseAt, LengthExtraAt, DistBaseAt, DistExtraAt;
  }

  /** A length symbol in a block body. */
  lemma BodyMatch(ll: seq<nat>, d: seq<nat>, s: seq<bool>, pos: nat, out: seq<byte>, t: Taken)
    requires TakenAt(ll, s, pos) == Some(t) && 257 <= t.sym < 288 && t.len > 0
    ensures TableBody(ll, d, s, pos, out)
         == match MatchTaken(d, t.sym, s, pos + t.len)
            case None => Short(out)
            case Some(m) => Mark(t.clean && m.clean, AtCopy(ll, d, s, m.pos, out, m.len, m.dist))
  {
    hide Copy, MatchTaken, TakenAt;
  }

  lemma MarkTwice(a: bool, b: bool, r: Reading)
    ensures Mark(a, Mark(b, r)) == Mark(a && b, r)
  {
  }

  lemma BodyMatchStep(ll: seq<nat>, d: seq<nat>, s: seq<bool>, pos: nat, out: seq<byte>, t: Taken)
    requires TakenAt(ll, s, pos) == Some(t) && 257 <= t.sym < 288 && t.len > 0
    ensures TableBody(ll, d, s, pos, out) == Mark(t.clean, AtSymbol(ll, d, s, pos + t.len, out, t.sym))
  {
    BodyMatch(ll, d, s, pos, out, t);
    MatchSteps(ll, d, s, pos + t.len, out, t.sym);
    hide TableBody, Copy, MatchTaken, TakenAt, AtSymbol, AtCopy;
    if MatchTaken(d, t.sym, s, pos + t.len).Some? {
      var m := MatchTaken(d, t.sym, s, pos + t.len).value;
      MarkTwice(t.clean, m.clean, AtCopy(ll, d, s, m.pos, out, m.len, m.dist));
    }
  }

  /** One step of a block body. */
  lemma BodyStep(ll: seq<nat>, d: seq<nat>, s: seq<bool>, pos: nat, out: seq<byte>)
    ensures TableBody(ll, d, s, pos, out)
         == match TakenAt(ll, s, pos)
            case None => Short(out)
            case Some(t) => Mark(t.clean, AtSymbol(ll, d, s, pos + t.len, out, t.sym))
  {
    hide Copy, MatchTaken, TakenAt, AtLenExtra;
    if TakenAt(ll, s, pos).Some? {
      var t := TakenAt(ll, s, pos).value;
      if t.len == 0 {
        NoBits(ll, d, s, pos, out);
        NoBits(ll, d, s, pos, out + [0]);
      } else if 257 <= t.sym < 288 {
        BodyMatchStep(ll, d, s, pos, out, t);
      }
    }
  }

  lemma NoBits(ll: seq<nat>, d: seq<nat>, s: seq<bool>, pos: nat, out: seq<byte>)
    requires TakenAt(ll, s, pos).Some? && TakenAt(ll, s, pos).value.len == 0
    ensures TableBody(ll, d, s, pos, out) == Endless
  {
    hide TakenAt, MatchTaken, Copy;
  }

  // ----- the header of a dynamic block -----

  /** Some of the code lengths are known. */
  ghost function AtLengths(s: seq<bool>, pos: nat, out: seq<byte>, nLit: nat, nDist: nat, cl: seq<nat>,
                           lens: seq<nat>): Reading
  {
    match TableLengths(cl, nLit + nDist, s, pos, lens)
    case Cut => Short(out)
    case Refused => Wrong
    case LengthsTaken(all, p, clean) => Mark(clean, AfterLengths(s, p, out, nLit, nDist, all))
  }

  /** A run symbol is known, its extra bits are next. */
  ghost function AtRun(s: seq<bool>, pos: nat, out: seq<byte>, nLit: nat, nDist: nat, cl: seq<nat>, lens: seq<nat>,
                       sym: nat): Reading
  {
    match Field(s, pos, RunBits(sym))
    case None => Short(out)
    case Some(v) =>
      AtLengths(s, pos + RunBits(sym), out, nLit, nDist, cl,
                lens + Repeat(if sym == 16 && lens != [] then lens[|lens| - 1] else 0, v + RunBase(sym)))
  }

  /** What a code length symbol leads to. */
  ghost function AtLengthSymbol(s: seq<bool>, pos: nat, out: seq<byte>, nLit: nat, nDist: nat, cl: seq<nat>,
                                lens: seq<nat>, sym: nat): Reading
  {
    if sym < 16 then AtLengths(s, pos, out, nLit, nDist, cl, lens + [sym])
    else if sym > 18 || (sym == 16 && lens == []) then Wrong
    else AtRun(s, pos, out, nLit, nDist, cl, lens, sym)
  }

  lemma LengthsEnd(s: seq<bool>, pos: nat, out: seq<byte>, nLit: nat, nDist: nat, cl: seq<nat>, lens: seq<nat>)
    requires |lens| >= nLit + nDist
    ensures AtLengths(s, pos, out, nLit, nDist, cl, lens) == AfterLengths(s, pos, out, nLit, nDist, lens)
  {
    hide AfterLengths, TakenAt;
  }

  lemma LengthsStep(s: seq<bool>, pos: nat, out: seq<byte>, nLit: nat, nDist: nat, cl: seq<nat>, lens: seq<nat>)
    requires |lens| < nLit + nDist
    ensures AtLengths(s, pos, out, nLit, nDist, cl, lens)
         == match TakenAt(cl, s, pos)
            case None => Short(out)
            case Some(t) => Mark(t.clean, AtLengthSymbol(s, pos + t.len, out, nLit, nDist, cl, lens, t.sym))
  {
    hide AfterLengths, Field, TakenAt, Repeat, RunBits, RunBase;
  }

  /** Some of the code length code lengths are known; the first was at pos. */
  ghost function AtCl(s: seq<bool>, pos: nat, out: seq<byte>, nLit: nat, nDist: nat, nCl: nat, cl: seq<nat>,
                      i: nat): Reading
    requires |cl| == 19
  {
    match ClLengths(nCl, s, pos, cl, i)
    case None => Short(out)
    case Some(all) => AfterCl(s, pos + 3 * nCl, out, nLit, nDist, all)
  }

  lemma AfterClIs(s: seq<bool>, pos: nat, out: seq<byte>, nLit: nat, nDist: nat, cl: seq<nat>)
    ensures AfterCl(s, pos, out, nLit, nDist, cl)
         == if !CodeOk(cl) then Wrong else AtLengths(s, pos, out, nLit, nDist, cl, [])
  {
    hide CodeOk, TableLengths, AfterLengths;
  }

  lemma ClStep(s: seq<bool>, pos: nat, out: seq<byte>, nLit: nat, nDist: nat, nCl: nat, cl: seq<nat>, i: nat)
    requires |cl| == 19 && i <= nCl <= 19
    ensures i == nCl ==> AtCl(s, pos, out, nLit, nDist, nCl, cl, i) == AfterCl(s, pos + 3 * nCl, out, nLit, nDist, cl)
    ensures i < nCl ==>
      (AtCl(s, pos, out, nLit, nDist, nCl, cl, i)
      == match Field(s, pos + 3 * i, 3)
         case None => Short(out)
         case Some(v) => AtCl(s, pos, out, nLit, nDist, nCl, cl[Order(i) := v], i + 1))
  {
    hide AfterCl, Field, Order;
  }

  /** The counts that open the header are known. */
  lemma DynamicSteps(s: seq<bool>, pos: nat, out: seq<byte>, a: nat, b: nat, c: nat)
    ensures pos + 14 > |s| ==> TableDynamic(s, pos, out) == Short(out)
    ensures pos + 14 <= |s| && a == BitsNat(s[pos..pos + 5]) && b == BitsNat(s[pos + 5..pos + 10])
      && c == BitsNat(s[pos + 10..pos + 14])
      ==> TableDynamic(s, pos, out) == AtCl(s, pos + 14, out, a + 257, b + 1, c + 4, Repeat(0, 19), 0)
  {
    hide AfterCl, ClLengths, BitsNat, Repeat;
  }

  // ----- readings never go back -----

  /** A reading that ends at pos or later and keeps the output so far. */
  ghost predicate Onward(r: Reading, pos: nat, out: seq<byte>) {
    (r.Complete? ==> pos <= r.pos && out <= r.out) && (r.Short? ==> out <= r.out)
  }

  lemma {:induction false} CopyExtends(out: seq<byte>, len: nat, dist: nat)
    requires 1 <= dist <= |out|
    ensures out <= Copy(out, len, dist)
    decreases len
  {
    if len > 0 {
      CopyExtends(out + [out[|out| - dist]], len - 1, dist);
    }
  }

  lemma {:induction false} BodyOnward(ll: seq<nat>, d: seq<nat>, s: seq<bool>, pos: nat, out: seq<byte>)
    ensures Onward(TableBody(ll, d, s, pos, out), pos, out)
    decreases |s| - pos
  {
    hide Copy, MatchTaken, TakenAt;
    match TakenAt(ll, s, pos)
    case None =>
    case Some(t) =>
      var p := pos + t.len;
      if t.len == 0 || t.sym == 256 || t.sym >= 288 {
      } else if t.sym < 256 {
        BodyOnward(ll, d, s, p, out + [t.sym]);
      } else if MatchTaken(d, t.sym, s, p).Some? {
        var m := MatchTaken(d, t.sym, s, p).value;
        if 1 <= m.dist <= |out| {
          BodyOnward(ll, d, s, m.pos, Copy(out, m.len, m.dist));
          CopyExtends(out, m.len, m.dist);
        }
      }
  }

  lemma {:induction false} BytesOnward(s: seq<bool>, pos: nat, out: seq<byte>, n: nat)
    ensures Onward(TableBytes(s, pos, out, n), pos + 8 * n, out)
    ensures TableBytes(s, pos, out, n).Complete? ==> |TableBytes(s, pos, out, n).out| == |out| + n
    decreases n
  {
    if n > 0 && pos + 8 <= |s| {
      BytesOnward(s, pos + 8, out + [ByteAt(s, pos)], n - 1);
    }
  }

  lemma StoredOnward(s: seq<bool>, pos: nat, out: seq<byte>)
    ensures Onward(TableStored(s, pos, out), pos + 32, out)
    ensures pos + 32 > |s| ==> TableStored(s, pos, out) == Short(out)
  {
    hide TableBytes, BitsNat;
    if pos + 16 <= |s| {
      BytesOnward(s, pos + 32, out, BitsNat(s[pos..pos + 16]));
    }
  }

  lemma BlockOnward(kind: nat, s: seq<bool>, pos: nat, out: seq<byte>)
    ensures Onward(TableBlock(kind, s, pos, out), pos, out)
  {
    hide TableBody, TableStored, TableDynamic;
    if kind == 0 {
      StoredOnward(s, Aligned(pos), out);
    } else if kind == 1 {
      BodyOnward(StaticLit(), StaticDist(), s, pos, out);
    } else if kind == 2 {
      DynamicOnward(s, pos, out);
    }
  }

  lemma {:induction false} BlocksOnward(s: seq<bool>, pos: nat, out: seq<byte>)
    ensures Onward(TableBlocks(s, pos, out), pos, out)
    ensures TableBlocks(s, pos, out).Complete? ==> pos + 3 <= TableBlocks(s, pos, out).pos
    decreases |s| - pos
  {
    hide TableBlock;
    if pos + 3 <= |s| {
      var kind := BitsNat(s[pos + 1..pos + 3]);
      BlockOnward(kind, s, pos + 3, out);
      var r := TableBlock(kind, s, pos + 3, out);
      if r.Complete? {
        BlocksOnward(s, r.pos, r.out);
      }
    }
  }

  lemma ThenOnward(fin: bool, s: seq<bool>, r: Reading, pos: nat, out: seq<byte>)
    requires Onward(r, pos, out)
    ensures Onward(Then(fin, s, r), pos, out)
  {
    hide TableBlocks;
    if r.Complete? {
      BlocksOnward(s, r.pos, r.out);
    }
  }

  lemma AtCopyOnward(ll: seq<nat>, d: seq<nat>, s: seq<bool>, pos: nat, out: seq<byte>, len: nat, dist: nat)
    ensures Onward(AtCopy(ll, d, s, pos, out, len, dist), pos, out)
  {
    hide TableBody;
    if 1 <= dist <= |out| {
      BodyOnward(ll, d, s, pos, Copy(out, len, dist));
      CopyExtends(out, len, dist);
    }
  }

  lemma AtDistExtraOnward(ll: seq<nat>, d: seq<nat>, s: seq<bool>, pos: nat, out: seq<byte>, len: nat, base: nat,
                          extra: nat)
    ensures Onward(AtDistExtra(ll, d, s, pos, out, len, base, extra), pos + extra, out)
  {
    hide AtCopy, Field;
    if Extended(base, extra, s, pos).Some? {
      AtCopyOnward(ll, d, s, pos + extra, out, len, Extended(base, extra, s, pos).value.0);
    }
  }

  lemma AtDistOnward(ll: seq<nat>, d: seq<nat>, s: seq<bool>, pos: nat, out: seq<byte>, len: nat)
    ensures Onward(AtDist(ll, d, s, pos, out, len), pos, out)
    ensures AtDist(ll, d, s, pos, out, len).Complete? ==>
      TakenAt(d, s, pos).Some? && pos + TakenAt(d, s, pos).value.len <= AtDist(ll, d, s, pos, out, len).pos
  {
    hide AtDistExtra, DistBaseAt, DistExtraAt, TakenAt;
    if TakenAt(d, s, pos).Some? && TakenAt(d, s, pos).value.sym < 32 {
      var t := TakenAt(d, s, pos).value;
      AtDistExtraOnward(ll, d, s, pos + t.len, out, len, DistBaseAt(t.sym), DistExtraAt(t.sym));
    }
  }

  lemma AtLenExtraOnward(ll: seq<nat>, d: seq<nat>, s: seq<bool>, pos: nat, out: seq<byte>, base: nat, extra: nat)
    ensures Onward(AtLenExtra(ll, d, s, pos, out, base, extra), pos + extra, out)
  {
    hide AtDist, Field;
    if Extended(base, extra, s, pos).Some? {
      AtDistOnward(ll, d, s, pos + extra, out, Extended(base, extra, s, pos).value.0);
    }
  }

  lemma AfterLengthsOnward(s: seq<bool>, pos: nat, out: seq<byte>, nLit: nat, nDist: nat, lens: seq<nat>)
    ensures Onward(AfterLengths(s, pos, out, nLit, nDist, lens), pos, out)
  {
    hide TableBody, CodeOk;
    if |lens| == nLit + nDist {
      BodyOnward(lens[..nLit], lens[nLit..], s, pos, out);
    }
  }

  lemma AtLengthsOnward(s: seq<bool>, pos: nat, out: seq<byte>, nLit: nat, nDist: nat, cl: seq<nat>, lens: seq<nat>)
    ensures Onward(AtLengths(s, pos, out, nLit, nDist, cl, lens), pos, out)
  {
    hide AfterLengths, TableLengths;
    match TableLengths(cl, nLit + nDist, s, pos, lens)
    case Cut =>
    case Refused =>
    case LengthsTaken(all, p, _) => AfterLengthsOnward(s, p, out, nLit, nDist, all);
  }

  lemma AtRunOnward(s: seq<bool>, pos: nat, out: seq<byte>, nLit: nat, nDist: nat, cl: seq<nat>, lens: seq<nat>,
                    sym: nat)
    ensures Onward(AtRun(s, pos, out, nLit, nDist, cl, lens, sym), pos + RunBits(sym), out)
  {
    hide AtLengths, RunBits, RunBase, Repeat;
    if Field(s, pos, RunBits(sym)).Some? {
      var v := Field(s, pos, RunBits(sym)).value;
      AtLengthsOnward(s, pos + RunBits(sym), out, nLit, nDist, cl,
        lens + Repeat(if sym == 16 && lens != [] then lens[|lens| - 1] else 0, v + RunBase(sym)));
    }
  }

  lemma AtClOnward(s: seq<bool>, pos: nat, out: seq<byte>, nLit: nat, nDist: nat, nCl: nat, cl: seq<nat>, i: nat)
    requires |cl| == 19
    ensures Onward(AtCl(s, pos, out, nLit, nDist, nCl, cl, i), pos + 3 * nCl, out)
  {
    hide AtLengths, CodeOk, ClLengths, AfterCl;
    match ClLengths(nCl, s, pos, cl, i)
    case None =>
    case Some(all) =>
      AfterClIs(s, pos + 3 * nCl, out, nLit, nDist, all);
      AtLengthsOnward(s, pos + 3 * nCl, out, nLit, nDist, all, []);
  }

  lemma DynamicOnward(s: seq<bool>, pos: nat, out: seq<byte>)
    ensures Onward(TableDynamic(s, pos, out), pos + 14, out)
  {
    hide TableDynamic, AtCl, BitsNat, Repeat;
    if pos + 14 > |s| {
      DynamicSteps(s, pos, out, 0, 0, 0);
    } else {
      var a, b, c := BitsNat(s[pos..pos + 5]), BitsNat(s[pos + 5..pos + 10]), BitsNat(s[pos + 10..pos + 14]);
      DynamicSteps(s, pos, out, a, b, c);
      AtClOnward(s, pos + 14, out, a + 257, b + 1, c + 4, Repeat(0, 19), 0);
    }
  }
}
