/** A stream that is cut before its end is found too short, with a beginning of its output. */
module CutStreams {
  import opened Bits
  import opened CanonicalCode
  import opened Deflate
  import opened DecodeTable
  import opened TableDecoding
  import opened InflateSpec
  import BlockHeaders

  /** If r is a clean reading, then c is what comes of it when only m bits are there. */
  ghost predicate Trims(r: Reading, c: Reading, m: nat) {
    r.Complete? && r.clean ==> if r.pos <= m then c == r else c.Short? && c.out <= r.out
  }

  lemma FieldCut(bits: seq<bool>, pos: nat, n: nat, m: nat)
    requires m <= |bits| && Field(bits, pos, n).Some?
    ensures Field(bits[..m], pos, n) == if pos + n <= m then Field(bits, pos, n) else None
  {
    hide BitsNat;
    if pos + n <= m {
      assert bits[..m][pos..pos + n] == bits[pos..pos + n];
    }
  }

  lemma CodewordCut(lens: seq<nat>, s: nat, bits: seq<bool>, pos: nat, m: nat)
    requires m <= |bits|
    ensures Codeword(lens, s, bits[..m], pos) ==> Codeword(lens, s, bits, pos) && pos + lens[s] <= m
    ensures Codeword(lens, s, bits, pos) && pos + lens[s] <= m ==> Codeword(lens, s, bits[..m], pos)
  {
    if s < |lens| && lens[s] > 0 {
      var k := |CodeBits(lens, s)|;
      assert k == lens[s];
      hide CodeBits;
      if pos + k <= m {
        assert bits[..m][pos..pos + k] == bits[pos..pos + k];
      }
    }
  }

  /** A symbol is taken if its code is there whole, and otherwise none is. */
  lemma TakenCut(lens: seq<nat>, bits: seq<bool>, pos: nat, m: nat)
    requires Feasible(lens) && m <= |bits| && TakenAt(lens, bits, pos).Some? && TakenAt(lens, bits, pos).value.clean
    ensures TakenAt(lens, bits[..m], pos)
         == if pos + TakenAt(lens, bits, pos).value.len <= m then TakenAt(lens, bits, pos) else None
  {
    var s := Symbol(lens, bits, pos).value;
    assert Codeword(lens, s, bits, pos);
    CodewordCut(lens, s, bits, pos, m);
    if pos + lens[s] <= m {
      SymbolIs(lens, s, bits[..m], pos);
    } else {
      CutOff(lens, bits, pos, m, s);
    }
  }

  lemma CutOff(lens: seq<nat>, bits: seq<bool>, pos: nat, m: nat, s: nat)
    requires Feasible(lens) && m <= |bits| && Codeword(lens, s, bits, pos) && m < pos + lens[s]
    ensures TakenAt(lens, bits[..m], pos).None?
  {
    hide Going, Codeword, TakenAt, Kraft;
    forall t: nat ensures !Codeword(lens, t, bits[..m], pos) {
      if Codeword(lens, t, bits[..m], pos) {
        OtherCode(lens, bits, pos, m, s, t);
        assert false;
      }
    }
    NoSymbol(lens, bits[..m], pos);
    forall n: nat ensures !Strays(lens, bits[..m], pos, n) {
      if Strays(lens, bits[..m], pos, n) {
        StillGoing(lens, bits, pos, m, s, n);
        assert false;
      }
    }
    CodewordShort(lens, bits, pos, s);
    TakesNone(lens, bits[..m], pos);
  }

  lemma CodewordShort(lens: seq<nat>, bits: seq<bool>, pos: nat, s: nat)
    requires Feasible(lens) && Codeword(lens, s, bits, pos)
    ensures s < |lens| && lens[s] <= 15
  {
    CodeLength(lens, s);
  }

  lemma OtherCode(lens: seq<nat>, bits: seq<bool>, pos: nat, m: nat, s: nat, t: nat)
    requires Feasible(lens) && m <= |bits| && Codeword(lens, s, bits, pos) && Codeword(lens, t, bits[..m], pos)
    ensures pos + lens[s] <= m
  {
    CodewordCut(lens, t, bits, pos, m);
    SymbolIs(lens, s, bits, pos);
    SymbolIs(lens, t, bits, pos);
  }

  lemma StillGoing(lens: seq<nat>, bits: seq<bool>, pos: nat, m: nat, s: nat, n: nat)
    requires m <= |bits| && Codeword(lens, s, bits, pos) && m < pos + lens[s] && pos + n <= m
    ensures Going(lens, bits[..m], pos, n)
  {
    CodeAhead(lens, bits, pos, n, s);
    hide OnTheWay;
    assert bits[..m][pos..pos + n] == bits[pos..pos + n];
  }

  lemma MatchCut(d: seq<nat>, s: nat, bits: seq<bool>, pos: nat, m: nat)
    requires Feasible(d) && m <= |bits| && 257 <= s < 288
    requires MatchTaken(d, s, bits, pos).Some? && MatchTaken(d, s, bits, pos).value.clean
    ensures MatchTaken(d, s, bits[..m], pos)
         == if MatchTaken(d, s, bits, pos).value.pos <= m then MatchTaken(d, s, bits, pos) else None
  {
    hide Field, TakenAt, Feasible, LengthBaseAt, LengthExtraAt, DistBaseAt, DistExtraAt;
    var e := LengthExtraAt(s - 257);
    FieldCut(bits, pos, e, m);
    var p := pos + e;
    TakenCut(d, bits, p, m);
    var t := TakenAt(d, bits, p).value;
    FieldCut(bits, p + t.len, DistExtraAt(t.sym), m);
  }

  /** The first symbol of a body, if it is read cleanly. */
  lemma BodyFirst(ll: seq<nat>, d: seq<nat>, bits: seq<bool>, pos: nat, out: seq<byte>)
    ensures var r := TableBody(ll, d, bits, pos, out);
      match TakenAt(ll, bits, pos)
      case None => r == Short(out)
      case Some(t) => if t.clean then r == AtSymbol(ll, d, bits, pos + t.len, out, t.sym) else !(r.Complete? && r.clean)
  {
    BodyStep(ll, d, bits, pos, out);
    hide TakenAt, TableBody, AtSymbol;
  }

  lemma BodyCut(ll: seq<nat>, d: seq<nat>, bits: seq<bool>, pos: nat, out: seq<byte>, m: nat)
    requires Feasible(ll) && Feasible(d) && m <= |bits|
    ensures Trims(TableBody(ll, d, bits, pos, out), TableBody(ll, d, bits[..m], pos, out), m)
    decreases |bits| - pos, 0
  {
    hide TakenAt, TableBody, AtSymbol, Feasible, Trims;
    BodyFirst(ll, d, bits, pos, out);
    BodyFirst(ll, d, bits[..m], pos, out);
    match TakenAt(ll, bits, pos)
    case None => NothingTrims(TableBody(ll, d, bits, pos, out), TableBody(ll, d, bits[..m], pos, out), m);
    case Some(t) =>
      if !t.clean {
        NothingTrims(TableBody(ll, d, bits, pos, out), TableBody(ll, d, bits[..m], pos, out), m);
      } else {
        TakenCut(ll, bits, pos, m);
        if pos + t.len <= m {
          SymbolCut(ll, d, bits, pos + t.len, out, t.sym, m);
        } else {
          SymbolLater(ll, d, bits, pos + t.len, out, t.sym);
          ShortTrims(AtSymbol(ll, d, bits, pos + t.len, out, t.sym), pos + t.len, out, m);
        }
      }
  }

  lemma NothingTrims(r: Reading, c: Reading, m: nat)
    requires !(r.Complete? && r.clean)
    ensures Trims(r, c, m)
  {
  }

  lemma ShortTrims(r: Reading, pos: nat, out: seq<byte>, m: nat)
    requires Onward(r, pos, out) && m < pos
    ensures Trims(r, Short(out), m)
  {
  }

  lemma SymbolLater(ll: seq<nat>, d: seq<nat>, bits: seq<bool>, p: nat, out: seq<byte>, sym: nat)
    ensures Onward(AtSymbol(ll, d, bits, p, out, sym), p, out)
  {
    hide TableBody, AtLenExtra, LengthBaseAt, LengthExtraAt;
    if sym < 256 {
      BodyOnward(ll, d, bits, p, out + [sym]);
    } else if 257 <= sym < 288 {
      AtLenExtraOnward(ll, d, bits, p, out, LengthBaseAt(sym - 257), LengthExtraAt(sym - 257));
    }
  }

  lemma SymbolCut(ll: seq<nat>, d: seq<nat>, bits: seq<bool>, p: nat, out: seq<byte>, sym: nat,
                                     m: nat)
    requires Feasible(ll) && Feasible(d) && p <= m <= |bits|
    ensures Trims(AtSymbol(ll, d, bits, p, out, sym), AtSymbol(ll, d, bits[..m], p, out, sym), m)
    decreases |bits| - p, 1
  {
    hide TableBody, AtLenExtra, MatchTaken, Copy, Feasible;
    if sym < 256 {
      BodyCut(ll, d, bits, p, out + [sym], m);
    } else if 257 <= sym < 288 {
      MatchSteps(ll, d, bits, p, out, sym);
      MatchSteps(ll, d, bits[..m], p, out, sym);
      hide AtSymbol;
      if MatchTaken(d, sym, bits, p).Some? && MatchTaken(d, sym, bits, p).value.clean {
        MatchCut(d, sym, bits, p, m);
        var q := MatchTaken(d, sym, bits, p).value;
        AtCopyOnward(ll, d, bits, q.pos, out, q.len, q.dist);
        if 1 <= q.dist <= |out| {
          BodyCut(ll, d, bits, q.pos, Copy(out, q.len, q.dist), m);
        }
      }
    }
  }

  // ----- headers -----

  /** The same for code lengths. */
  ghost predicate TrimsLengths(r: LengthsTaken, c: LengthsTaken, m: nat) {
    r.LengthsTaken? && r.clean ==> if r.pos <= m then c == r else c.Cut?
  }

  lemma LengthsCut(cl: seq<nat>, n: nat, bits: seq<bool>, pos: nat, lens: seq<nat>, m: nat)
    requires Feasible(cl) && pos <= m <= |bits|
    ensures TrimsLengths(TableLengths(cl, n, bits, pos, lens), TableLengths(cl, n, bits[..m], pos, lens), m)
    decreases n - |lens|, 1
  {
    if |lens| < n {
      hide TakenAt, Feasible, AfterSymbol, TableLengths;
      LengthsFirst(cl, n, bits, pos, lens);
      LengthsFirst(cl, n, bits[..m], pos, lens);
      match TakenAt(cl, bits, pos)
      case None =>
      case Some(t) =>
        if t.clean {
          TakenCut(cl, bits, pos, m);
          if pos + t.len <= m {
            LengthCut(cl, n, bits, pos + t.len, lens, t.sym, m);
          } else {
            LengthLater(cl, n, bits, pos + t.len, lens, t.sym);
          }
        }
    } else {
      hide TakenAt;
    }
  }

  lemma LengthLater(cl: seq<nat>, n: nat, bits: seq<bool>, p: nat, lens: seq<nat>, sym: nat)
    ensures AfterSymbol(cl, n, bits, p, lens, sym).LengthsTaken? ==> p <= AfterSymbol(cl, n, bits, p, lens, sym).pos
  {
    hide TableLengths, Field, Repeat, RunBits, RunBase;
  }

  lemma LengthCut(cl: seq<nat>, n: nat, bits: seq<bool>, p: nat, lens: seq<nat>, sym: nat, m: nat)
    requires Feasible(cl) && p <= m <= |bits| && |lens| < n
    ensures TrimsLengths(AfterSymbol(cl, n, bits, p, lens, sym), AfterSymbol(cl, n, bits[..m], p, lens, sym), m)
    decreases n - |lens|, 0
  {
    hide TableLengths, Field, Repeat, RunBits, RunBase, Feasible;
    if sym < 16 {
      LengthsCut(cl, n, bits, p, lens + [sym], m);
    } else if sym <= 18 && (sym == 16 ==> lens != []) && Field(bits, p, RunBits(sym)).Some? {
      FieldCut(bits, p, RunBits(sym), m);
      RunsLong(sym);
      if p + RunBits(sym) <= m {
        var v := Field(bits, p, RunBits(sym)).value;
        LengthsCut(cl, n, bits, p + RunBits(sym),
          lens + Repeat(if sym == 16 then lens[|lens| - 1] else 0, v + RunBase(sym)), m);
      }
    }
  }

  lemma {:induction false} ClCut(n: nat, bits: seq<bool>, pos: nat, cl: seq<nat>, i: nat, m: nat)
    requires |cl| == 19 && m <= |bits| && n <= 19 && i <= n && ClLengths(n, bits, pos, cl, i).Some?
    ensures ClLengths(n, bits[..m], pos, cl, i)
         == if pos + 3 * n <= m || i == n then ClLengths(n, bits, pos, cl, i) else None
    decreases n - i
  {
    hide Field, Order;
    if i < n {
      FieldCut(bits, pos + 3 * i, 3, m);
      var v := Field(bits, pos + 3 * i, 3).value;
      ClCut(n, bits, pos, cl[Order(i) := v], i + 1, m);
    }
  }

  lemma AfterLengthsCut(bits: seq<bool>, pos: nat, out: seq<byte>, nLit: nat, nDist: nat, lens: seq<nat>, m: nat)
    requires m <= |bits|
    ensures Trims(AfterLengths(bits, pos, out, nLit, nDist, lens),
                  AfterLengths(bits[..m], pos, out, nLit, nDist, lens), m)
  {
    hide TableBody, CodeOk, Trims;
    if |lens| != nLit + nDist || !CodeOk(lens[nLit..]) || !CodeOk(lens[..nLit]) {
      WrongTrims(m);
    } else {
      CodeOkFeasible(lens[nLit..]);
      CodeOkFeasible(lens[..nLit]);
      BodyCut(lens[..nLit], lens[nLit..], bits, pos, out, m);
    }
  }

  lemma WrongTrims(m: nat)
    ensures Trims(Wrong, Wrong, m)
  {
  }

  lemma AfterClCut(bits: seq<bool>, pos: nat, out: seq<byte>, nLit: nat, nDist: nat, cl: seq<nat>, m: nat)
    requires pos <= m <= |bits|
    ensures Trims(AfterCl(bits, pos, out, nLit, nDist, cl), AfterCl(bits[..m], pos, out, nLit, nDist, cl), m)
  {
    hide TableLengths, AfterLengths, CodeOk;
    if CodeOk(cl) {
      CodeOkFeasible(cl);
      LengthsCut(cl, nLit + nDist, bits, pos, [], m);
      match TableLengths(cl, nLit + nDist, bits, pos, [])
      case Cut =>
      case Refused =>
      case LengthsTaken(lens, p, clean) =>
        AfterLengthsCut(bits, p, out, nLit, nDist, lens, m);
        AfterLengthsOnward(bits, p, out, nLit, nDist, lens);
    }
  }

  lemma DynamicCut(bits: seq<bool>, pos: nat, out: seq<byte>, m: nat)
    requires m <= |bits|
    ensures Trims(TableDynamic(bits, pos, out), TableDynamic(bits[..m], pos, out), m)
  {
    DynamicOnward(bits, pos, out);
    hide AfterCl, ClLengths, BitsNat, Repeat;
    var r := TableDynamic(bits, pos, out);
    if r.Complete? && pos + 14 <= m {
      CountsCut(bits, pos, m);
      var nLit, nDist := BitsNat(bits[pos..pos + 5]) + 257, BitsNat(bits[pos + 5..pos + 10]) + 1;
      var nCl := BitsNat(bits[pos + 10..pos + 14]) + 4;
      ClCut(nCl, bits, pos + 14, Repeat(0, 19), 0, m);
      var cl := ClLengths(nCl, bits, pos + 14, Repeat(0, 19), 0).value;
      if pos + 14 + 3 * nCl <= m {
        AfterClCut(bits, pos + 14 + 3 * nCl, out, nLit, nDist, cl, m);
      } else {
        AfterClLater(bits, pos + 14 + 3 * nCl, out, nLit, nDist, cl);
      }
    }
  }

  lemma CountsCut(bits: seq<bool>, pos: nat, m: nat)
    requires pos + 14 <= m <= |bits|
    ensures bits[..m][pos..pos + 5] == bits[pos..pos + 5] && bits[..m][pos + 5..pos + 10] == bits[pos + 5..pos + 10]
    ensures bits[..m][pos + 10..pos + 14] == bits[pos + 10..pos + 14] && BitsNat(bits[pos + 10..pos + 14]) <= 15
  {
    BitsNatBound(bits[pos + 10..pos + 14]);
    Pow2Values();
    hide BitsNat;
  }

  lemma AfterClLater(bits: seq<bool>, pos: nat, out: seq<byte>, nLit: nat, nDist: nat, cl: seq<nat>)
    ensures Onward(AfterCl(bits, pos, out, nLit, nDist, cl), pos, out)
  {
    hide AtLengths, CodeOk;
    AfterClIs(bits, pos, out, nLit, nDist, cl);
    AtLengthsOnward(bits, pos, out, nLit, nDist, cl, []);
  }

  // ----- blocks and streams -----

  lemma {:induction false} BytesCut(bits: seq<bool>, pos: nat, out: seq<byte>, n: nat, m: nat)
    requires pos <= m <= |bits|
    ensures Trims(TableBytes(bits, pos, out, n), TableBytes(bits[..m], pos, out, n), m)
    decreases n
  {
    BytesOnward(bits, pos, out, n);
    if n > 0 && pos + 8 <= m {
      assert bits[..m][pos..pos + 8] == bits[pos..pos + 8];
      hide BitsNat;
      BytesCut(bits, pos + 8, out + [ByteAt(bits, pos)], n - 1, m);
    }
  }

  lemma StoredCut(bits: seq<bool>, pos: nat, out: seq<byte>, m: nat)
    requires m <= |bits|
    ensures Trims(TableStored(bits, pos, out), TableStored(bits[..m], pos, out), m)
  {
    StoredOnward(bits, pos, out);
    hide Field, TableBytes;
    var r := TableStored(bits, pos, out);
    if r.Complete? {
      FieldCut(bits, pos, 16, m);
      FieldCut(bits, pos + 16, 16, m);
      if pos + 32 <= m {
        BytesCut(bits, pos + 32, out, Field(bits, pos, 16).value, m);
      }
    }
  }

  lemma StaticFeasible()
    ensures Feasible(StaticLit()) && Feasible(StaticDist())
  {
    BlockHeaders.StaticComplete();
    hide StaticLit, StaticDist, Kraft;
  }

  lemma BlockCut(kind: nat, bits: seq<bool>, pos: nat, out: seq<byte>, m: nat)
    requires m <= |bits|
    ensures Trims(TableBlock(kind, bits, pos, out), TableBlock(kind, bits[..m], pos, out), m)
  {
    hide TableStored, TableBody, TableDynamic, Trims;
    if kind == 0 {
      StoredCut(bits, Aligned(pos), out, m);
    } else if kind == 1 {
      StaticFeasible();
      BodyCut(StaticLit(), StaticDist(), bits, pos, out, m);
    } else if kind == 2 {
      DynamicCut(bits, pos, out, m);
    } else {
      WrongTrims(m);
    }
  }

  lemma {:induction false} BlocksCut(bits: seq<bool>, pos: nat, out: seq<byte>, m: nat)
    requires m <= |bits|
    ensures Trims(TableBlocks(bits, pos, out), TableBlocks(bits[..m], pos, out), m)
    decreases |bits| - pos
  {
    BlocksOnward(bits, pos, out);
    hide TableBlock, BitsNat;
    var r := TableBlocks(bits, pos, out);
    if r.Complete? && r.clean && pos + 3 <= m {
      assert bits[..m][pos + 1..pos + 3] == bits[pos + 1..pos + 3];
      var kind := BitsNat(bits[pos + 1..pos + 3]);
      var b := TableBlock(kind, bits, pos + 3, out);
      BlockCut(kind, bits, pos + 3, out, m);
      if !bits[pos] {
        BlocksOnward(bits, b.pos, b.out);
        BlocksCut(bits, b.pos, b.out, m);
      }
    }
  }

  /**
   A stream that decodes by the format is too short as long as its last block is not there whole; what there is of it
   gives a beginning of the output.
   */
  lemma StreamCut(bits: seq<bool>, zlib: bool, wrapping: bool, m: nat)
    requires m <= |bits| && Decoding(bits, zlib, wrapping).Some?
    ensures var p := Decoding(bits, zlib, wrapping).value; var c := StreamReading(bits[..m], zlib, wrapping);
      if p.pos <= m then c == Complete(p.out, p.pos, true) else c.Short? && c.out <= p.out
  {
    CleanStream(bits, zlib, wrapping);
    hide TableBlocks, Blocks, Field, ZlibHeaderOk, Decoding;
    if zlib {
      FieldCut(bits, 0, 8, m);
      if m >= 8 {
        FieldCut(bits, 8, 8, m);
      }
      BlocksOnward(bits, 16, []);
      BlocksCut(bits, 16, [], m);
    } else {
      BlocksCut(bits, 0, [], m);
    }
  }
}
