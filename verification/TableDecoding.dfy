/** What the decoder's tables make of any bits at all, and where that is the format's decoding. */
module TableDecoding {
  import opened Bits
  import opened CanonicalCode
  import opened Deflate

  // ----- symbols -----

  /** What a lookup takes: a symbol and its bits. It is clean if the bits are the symbol's code. */
  datatype Taken = Taken(sym: nat, len: nat, clean: bool)

  /** The path is a proper beginning of a code. */
  ghost predicate OnTheWay(lens: seq<nat>, path: seq<bool>) {
    exists s: nat :: Used(lens, s) && |path| < lens[s] && path <= CodeBits(lens, s)
  }

  /** The n bits at pos are. */
  ghost predicate Going(lens: seq<nat>, bits: seq<bool>, pos: nat, n: int) {
    0 <= n && pos + n <= |bits| && OnTheWay(lens, bits[pos..pos + n])
  }

  /** After more than ten bits the lookup leaves the way to every code. */
  ghost predicate Strays(lens: seq<nat>, bits: seq<bool>, pos: nat, n: nat) {
    10 < n <= 15 && pos + n <= |bits| && Going(lens, bits, pos, n - 1) && !Going(lens, bits, pos, n)
  }

  /**
   The symbol a lookup at pos gives. Bits that begin with no code are taken for symbol 0: with the bits up to where the
   tree is left, or with none if the first ten bits lead to no tree, and then only once there are fifteen.
   */
  ghost function TakenAt(lens: seq<nat>, bits: seq<bool>, pos: nat): (r: Option<Taken>)
    ensures r.Some? ==> pos + r.value.len <= |bits| && (r.value.len == 0 ==> r.value.sym == 0 && !r.value.clean)
    ensures r.Some? ==> r.value.clean == Symbol(lens, bits, pos).Some? && (r.value.sym == 0 || r.value.sym < |lens|)
  {
    if Symbol(lens, bits, pos).Some? then
      var s := Symbol(lens, bits, pos).value;
      Some(Taken(s, lens[s], true))
    else if exists n :: Strays(lens, bits, pos, n) then
      var n :| Strays(lens, bits, pos, n);
      Some(Taken(0, n, false))
    else if pos + 15 <= |bits| then Some(Taken(0, 0, false))
    else None
  }

  // ----- readings -----

  /**
   What reading a stream comes to: its end; a stream that is too short, with all the output there is up to its end;
   a header or a code that is refused; a code that gives symbol 0 for ever; or a match from before the output.
   Complete readings are clean if only codes and symbols of the format were used.
   */
  datatype Reading =
    | Complete(out: seq<byte>, pos: nat, clean: bool)
    | Short(out: seq<byte>)
    | Wrong
    | Endless
    | Before

  function Mark(clean: bool, r: Reading): Reading {
    if r.Complete? then r.(clean := r.clean && clean) else r
  }

  // ----- block bodies -----

  /** The tables by index; the last entries belong to no symbol of the format. */
  function LengthBaseAt(i: nat): nat
    requires i < 31
  {
    LENGTH_BASE[i]
  }

  function LengthExtraAt(i: nat): (e: nat)
    requires i < 31
    ensures e <= 5
  {
    LENGTH_EXTRA[i]
  }

  function DistBaseAt(i: nat): nat
    requires i < 32
  {
    DIST_BASE[i]
  }

  function DistExtraAt(i: nat): (e: nat)
    requires i < 32
    ensures e <= 13
  {
    DIST_EXTRA[i]
  }

  /** A match that was read, and where it ends. */
  datatype CopyTaken = CopyTaken(len: nat, dist: nat, pos: nat, clean: bool)

  /** The match of length symbol s, the position being after that symbol; none if the bits do not suffice. */
  ghost function MatchTaken(d: seq<nat>, s: nat, bits: seq<bool>, pos: nat): (r: Option<CopyTaken>)
    requires 257 <= s < 288
    ensures r.Some? ==> pos <= r.value.pos
  {
    match Extended(LengthBaseAt(s - 257), LengthExtraAt(s - 257), bits, pos)
    case None => None
    case Some((len, p1)) =>
      match TakenAt(d, bits, p1)
      case None => None
      case Some(t) =>
        if t.sym >= 32 then None else
        match Extended(DistBaseAt(t.sym), DistExtraAt(t.sym), bits, p1 + t.len)
        case None => None
        case Some((dist, p2)) => Some(CopyTaken(len, dist, p2, t.clean && s <= 285))
  }

  /** Reads tokens up to the end-of-block code. */
  ghost function TableBody(ll: seq<nat>, d: seq<nat>, bits: seq<bool>, pos: nat, out: seq<byte>): (r: Reading)
    ensures r.Complete? ==> pos < r.pos
    decreases |bits| - pos
  {
    match TakenAt(ll, bits, pos)
    case None => Short(out)
    case Some(t) =>
      var p := pos + t.len;
      if t.len == 0 then Endless
      else if t.sym < 256 then Mark(t.clean, TableBody(ll, d, bits, p, out + [t.sym]))
      else if t.sym == 256 then Complete(out, p, t.clean)
      else if t.sym >= 288 then Wrong
      else
        match MatchTaken(d, t.sym, bits, p)
        case None => Short(out)
        case Some(m) =>
          if m.dist == 0 || m.dist > |out| then Before
          else Mark(t.clean && m.clean, TableBody(ll, d, bits, m.pos, Copy(out, m.len, m.dist)))
  }

  // ----- dynamic headers -----

  /** Code lengths that were read, as many as asked for or more; or too few bits; or a repeat of nothing. */
  datatype LengthsTaken = LengthsTaken(lens: seq<nat>, pos: nat, clean: bool) | Cut | Refused

  function MarkLengths(clean: bool, r: LengthsTaken): LengthsTaken {
    if r.LengthsTaken? then r.(clean := r.clean && clean) else r
  }

  ghost function TableLengths(cl: seq<nat>, n: nat, bits: seq<bool>, pos: nat, lens: seq<nat>): (r: LengthsTaken)
    ensures r.LengthsTaken? ==> pos <= r.pos
    decreases n - |lens|
  {
    if |lens| >= n then LengthsTaken(lens, pos, true) else
    match TakenAt(cl, bits, pos)
    case None => Cut
    case Some(t) =>
      var p := pos + t.len;
      if t.sym < 16 then MarkLengths(t.clean, TableLengths(cl, n, bits, p, lens + [t.sym]))
      else if t.sym > 18 || (t.sym == 16 && lens == []) then Refused
      else
        match Field(bits, p, RunBits(t.sym))
        case None => Cut
        case Some(v) =>
          MarkLengths(t.clean, TableLengths(cl, n, bits, p + RunBits(t.sym),
                                 lens + Repeat(if t.sym == 16 then lens[|lens| - 1] else 0, v + RunBase(t.sym))))
  }

  /** Both codes' lengths are known. */
  ghost function AfterLengths(bits: seq<bool>, pos: nat, out: seq<byte>, nLit: nat, nDist: nat,
                              lens: seq<nat>): (r: Reading)
    ensures r.Complete? ==> pos < r.pos
  {
    if |lens| != nLit + nDist || !CodeOk(lens[nLit..]) || !CodeOk(lens[..nLit]) then Wrong
    else TableBody(lens[..nLit], lens[nLit..], bits, pos, out)
  }

  /** The code length code is known. */
  ghost function AfterCl(bits: seq<bool>, pos: nat, out: seq<byte>, nLit: nat, nDist: nat, cl: seq<nat>): (r: Reading)
    ensures r.Complete? ==> pos < r.pos
  {
    if !CodeOk(cl) then Wrong else
    match TableLengths(cl, nLit + nDist, bits, pos, [])
    case Cut => Short(out)
    case Refused => Wrong
    case LengthsTaken(lens, p, clean) => Mark(clean, AfterLengths(bits, p, out, nLit, nDist, lens))
  }

  ghost function TableDynamic(bits: seq<bool>, pos: nat, out: seq<byte>): (r: Reading)
    ensures r.Complete? ==> pos < r.pos
  {
    if pos + 14 > |bits| then Short(out) else
    var nLit := BitsNat(bits[pos..pos + 5]) + 257;
    var nDist := BitsNat(bits[pos + 5..pos + 10]) + 1;
    var nCl := BitsNat(bits[pos + 10..pos + 14]) + 4;
    match ClLengths(nCl, bits, pos + 14, Repeat(0, 19), 0)
    case None => Short(out)
    case Some(cl) => AfterCl(bits, pos + 14 + 3 * nCl, out, nLit, nDist, cl)
  }

  // ----- blocks -----

  ghost function TableStored(bits: seq<bool>, pos: nat, out: seq<byte>): (r: Reading)
    ensures r.Complete? ==> pos <= r.pos
  {
    match Field(bits, pos, 16)
    case None => Short(out)
    case Some(len) =>
      match Field(bits, pos + 16, 16)
      case None => Short(out)
      case Some(nlen) => if len + nlen != 65535 then Wrong else TableBytes(bits, pos + 32, out, len)
  }

  ghost function TableBytes(bits: seq<bool>, pos: nat, out: seq<byte>, n: nat): (r: Reading)
    ensures r.Complete? ==> r.pos == pos + 8 * n
    decreases n
  {
    if n == 0 then Complete(out, pos, true) else
    if pos + 8 > |bits| then Short(out) else
    TableBytes(bits, pos + 8, out + [ByteAt(bits, pos)], n - 1)
  }

  ghost function TableBlock(kind: nat, bits: seq<bool>, pos: nat, out: seq<byte>): (r: Reading)
    ensures r.Complete? ==> pos <= r.pos
  {
    if kind == 0 then TableStored(bits, Aligned(pos), out)
    else if kind == 1 then TableBody(StaticLit(), StaticDist(), bits, pos, out)
    else if kind == 2 then TableDynamic(bits, pos, out)
    else Wrong
  }

  /** Reads blocks up to and including the one marked final. */
  ghost function TableBlocks(bits: seq<bool>, pos: nat, out: seq<byte>): Reading
    decreases |bits| - pos
  {
    if pos + 3 > |bits| then Short(out) else
    var kind := BitsNat(bits[pos + 1..pos + 3]);
    var r := TableBlock(kind, bits, pos + 3, out);
    if !r.Complete? || bits[pos] then r else Mark(r.clean, TableBlocks(bits, r.pos, r.out))
  }

  // ----- streams -----

  /** Whether the zlib header of RFC 1950 section 2.2 is one the decoder takes. */
  predicate ZlibHeaderOk(cmf: nat, flg: nat, wrapping: bool) {
    (cmf * 256 + flg) % 31 == 0 && flg / 32 % 2 == 0 && cmf % 16 == 8 && (wrapping ==> cmf / 16 <= 7)
  }

  /** What a whole stream decodes to, by the format. */
  ghost function Decoding(bits: seq<bool>, zlib: bool, wrapping: bool): Option<Progress> {
    if !zlib then Blocks(bits, 0, [])
    else
      match Field(bits, 0, 8)
      case None => None
      case Some(cmf) =>
        match Field(bits, 8, 8)
        case None => None
        case Some(flg) => if ZlibHeaderOk(cmf, flg, wrapping) then Blocks(bits, 16, []) else None
  }

  /** What the decoder's tables make of it. */
  ghost function StreamReading(bits: seq<bool>, zlib: bool, wrapping: bool): Reading {
    if !zlib then TableBlocks(bits, 0, [])
    else
      match Field(bits, 0, 8)
      case None => Short([])
      case Some(cmf) =>
        match Field(bits, 8, 8)
        case None => Short([])
        case Some(flg) => if ZlibHeaderOk(cmf, flg, wrapping) then TableBlocks(bits, 16, []) else Wrong
  }

  // ----- clean readings are the format's decodings -----

  /** A clean end. */
  function Clean(r: Reading): Option<Progress> {
    if r.Complete? && r.clean then Some(Progress(r.out, r.pos)) else None
  }

  /** A clean lookup gives the format's symbol, and without one there is none. */
  lemma CleanTaken(lens: seq<nat>, bits: seq<bool>, pos: nat)
    ensures match TakenAt(lens, bits, pos)
      case None => Symbol(lens, bits, pos).None?
      case Some(t) =>
        if t.clean then Symbol(lens, bits, pos) == Some(t.sym) && t.sym < |lens| && t.len == lens[t.sym] > 0
        else Symbol(lens, bits, pos).None?
  {
    hide Strays;
  }

  /** The tables agree with the format's as far as that goes; the other symbols have base and extra bits zero. */
  lemma SameTables()
    ensures forall s: nat :: 257 <= s <= 285 ==>
      LengthBaseAt(s - 257) == LengthBase(s) && LengthExtraAt(s - 257) == LengthExtra(s)
    ensures forall s: nat :: s < 30 ==> DistBaseAt(s) == DistBase(s) && DistExtraAt(s) == DistExtraBits(s)
    ensures DistBaseAt(30) == DistBaseAt(31) == 0 && DistExtraAt(30) == DistExtraAt(31) == 0
  {
  }

  lemma CleanMatch(d: seq<nat>, s: nat, bits: seq<bool>, pos: nat)
    requires |d| <= 32 && 257 <= s < 288
    ensures var m := MatchTaken(d, s, bits, pos);
      (m.Some? && m.value.clean && m.value.dist != 0)
      == (s <= 285 && MatchAt(d, s, bits, pos).Some? && MatchAt(d, s, bits, pos).value.0.dist != 0)
    ensures s <= 285 && MatchAt(d, s, bits, pos).Some? ==>
      MatchTaken(d, s, bits, pos) == Some(CopyTaken(MatchAt(d, s, bits, pos).value.0.len,
        MatchAt(d, s, bits, pos).value.0.dist, MatchAt(d, s, bits, pos).value.1, true))
  {
    SameTables();
    FieldZero(bits);
    hide Field, Symbol, LengthBaseAt, LengthExtraAt, LengthBase, LengthExtra, DistBaseAt, DistExtraAt, DistBase;
    hide DistExtraBits;
  }

  lemma FieldZero(bits: seq<bool>)
    ensures forall p: nat :: p <= |bits| ==> Field(bits, p, 0) == Some(0)
  {
  }

  lemma {:induction false} CleanBody(ll: seq<nat>, d: seq<nat>, bits: seq<bool>, pos: nat, out: seq<byte>)
    requires |ll| <= 288 && |d| <= 32
    ensures Body(ll, d, bits, pos, out) == Clean(TableBody(ll, d, bits, pos, out))
    decreases |bits| - pos
  {
    CleanTaken(ll, bits, pos);
    hide Symbol, TakenAt, MatchAt, MatchTaken, Copy;
    if Symbol(ll, bits, pos).Some? {
      var s := Symbol(ll, bits, pos).value;
      var p := pos + ll[s];
      if s < 256 {
        CleanBody(ll, d, bits, p, out + [s]);
      } else if s > 256 {
        CleanMatch(d, s, bits, p);
        if MatchTaken(d, s, bits, p).Some? {
          var m := MatchTaken(d, s, bits, p).value;
          if 1 <= m.dist <= |out| {
            CleanBody(ll, d, bits, m.pos, Copy(out, m.len, m.dist));
          }
        }
      }
    }
  }

  /** What a code length symbol leads to. */
  ghost function AfterSymbol(cl: seq<nat>, n: nat, bits: seq<bool>, p: nat, lens: seq<nat>, sym: nat): LengthsTaken {
    if sym < 16 then TableLengths(cl, n, bits, p, lens + [sym])
    else if sym > 18 || (sym == 16 && lens == []) then Refused
    else
      match Field(bits, p, RunBits(sym))
      case None => Cut
      case Some(v) =>
        TableLengths(cl, n, bits, p + RunBits(sym),
                     lens + Repeat(if sym == 16 then lens[|lens| - 1] else 0, v + RunBase(sym)))
  }

  /** The first symbol, if it is read cleanly. */
  lemma LengthsFirst(cl: seq<nat>, n: nat, bits: seq<bool>, pos: nat, lens: seq<nat>)
    requires |lens| < n
    ensures var r := TableLengths(cl, n, bits, pos, lens);
      match TakenAt(cl, bits, pos)
      case None => r == Cut
      case Some(t) =>
        if t.clean then r == AfterSymbol(cl, n, bits, pos + t.len, lens, t.sym) else !(r.LengthsTaken? && r.clean)
  {
    hide TakenAt, Field, Repeat, RunBits, RunBase;
  }

  /** What the tables read cleanly is what the format reads. */
  ghost predicate Agrees(r: LengthsTaken, p: Option<(seq<nat>, nat)>) {
    p == if r.LengthsTaken? && r.clean then Some((r.lens, r.pos)) else None
  }

  lemma CleanLengths(cl: seq<nat>, n: nat, bits: seq<bool>, pos: nat, lens: seq<nat>)
    ensures Agrees(TableLengths(cl, n, bits, pos, lens), Lengths(cl, n, bits, pos, lens))
    decreases n - |lens|, 1
  {
    if |lens| < n {
      CleanTaken(cl, bits, pos);
      LengthsFirst(cl, n, bits, pos, lens);
      hide Symbol, TakenAt, TableLengths, AfterSymbol, Field, Repeat, RunBits, RunBase;
      if Symbol(cl, bits, pos).Some? {
        var s := Symbol(cl, bits, pos).value;
        CleanAfter(cl, n, bits, pos, lens, s);
      }
    } else {
      hide TakenAt, Symbol;
    }
  }

  lemma CleanAfter(cl: seq<nat>, n: nat, bits: seq<bool>, pos: nat, lens: seq<nat>, s: nat)
    requires |lens| < n && Symbol(cl, bits, pos) == Some(s)
    ensures Agrees(AfterSymbol(cl, n, bits, pos + cl[s], lens, s), Lengths(cl, n, bits, pos, lens))
    decreases n - |lens|, 0
  {
    hide Symbol, TakenAt, TableLengths, Field, Repeat, RunBits, RunBase;
    var p := pos + cl[s];
    if s < 16 {
      CleanLengths(cl, n, bits, p, lens + [s]);
    } else if s <= 18 && (s == 16 ==> lens != []) && Field(bits, p, RunBits(s)).Some? {
      var v := Field(bits, p, RunBits(s)).value;
      RunsLong(s);
      CleanLengths(cl, n, bits, p + RunBits(s),
        lens + Repeat(if s == 16 then lens[|lens| - 1] else 0, v + RunBase(s)));
    }
  }

  lemma RunsLong(s: nat)
    ensures RunBase(s) >= 3
  {
  }

  lemma CleanDynamic(bits: seq<bool>, pos: nat, out: seq<byte>)
    ensures Block(2, bits, pos, out) == Clean(TableDynamic(bits, pos, out))
  {
    hide Lengths, TableLengths, Body, TableBody, CodeOk, ClLengths, Repeat;
    if pos + 14 <= |bits| {
      var nLit, nDist := BitsNat(bits[pos..pos + 5]) + 257, BitsNat(bits[pos + 5..pos + 10]) + 1;
      var nCl := BitsNat(bits[pos + 10..pos + 14]) + 4;
      CountsSmall(bits, pos);
      match ClLengths(nCl, bits, pos + 14, Repeat(0, 19), 0)
      case None =>
      case Some(cl) =>
        CleanLengths(cl, nLit + nDist, bits, pos + 14 + 3 * nCl, []);
        match Lengths(cl, nLit + nDist, bits, pos + 14 + 3 * nCl, [])
        case None =>
        case Some((lens, p)) =>
          if |lens| == nLit + nDist {
            CleanBody(lens[..nLit], lens[nLit..], bits, p, out);
          }
    }
  }

  lemma CountsSmall(bits: seq<bool>, pos: nat)
    requires pos + 14 <= |bits|
    ensures BitsNat(bits[pos..pos + 5]) < 32 && BitsNat(bits[pos + 5..pos + 10]) < 32
  {
    BitsNatBound(bits[pos..pos + 5]);
    BitsNatBound(bits[pos + 5..pos + 10]);
    Pow2Values();
    hide BitsNat;
  }

  lemma {:induction false} CleanBytes(bits: seq<bool>, pos: nat, out: seq<byte>, n: nat)
    ensures StoredBytes(bits, pos, out, n) == Clean(TableBytes(bits, pos, out, n))
    decreases n
  {
    hide ByteAt;
    if n > 0 && pos + 8 <= |bits| {
      CleanBytes(bits, pos + 8, out + [ByteAt(bits, pos)], n - 1);
    }
  }

  lemma CleanBlock(kind: nat, bits: seq<bool>, pos: nat, out: seq<byte>)
    ensures Block(kind, bits, pos, out) == Clean(TableBlock(kind, bits, pos, out))
  {
    hide TableBytes, StoredBytes, Field, Body, TableBody, DynamicCodes, TableDynamic, StaticLit, StaticDist;
    if kind == 0 {
      forall p: nat, n: nat ensures StoredBytes(bits, p, out, n) == Clean(TableBytes(bits, p, out, n)) {
        CleanBytes(bits, p, out, n);
      }
    } else if kind == 1 {
      CleanBody(StaticLit(), StaticDist(), bits, pos, out);
    } else if kind == 2 {
      CleanDynamic(bits, pos, out);
    }
  }

  /** Blocks that decode by the format are those that the tables read cleanly. */
  lemma {:induction false} CleanBlocks(bits: seq<bool>, pos: nat, out: seq<byte>)
    ensures Blocks(bits, pos, out) == Clean(TableBlocks(bits, pos, out))
    decreases |bits| - pos
  {
    hide Block, TableBlock, BitsNat;
    if pos + 3 <= |bits| {
      var kind := BitsNat(bits[pos + 1..pos + 3]);
      CleanBlock(kind, bits, pos + 3, out);
      var r := TableBlock(kind, bits, pos + 3, out);
      if r.Complete? && !bits[pos] {
        CleanBlocks(bits, r.pos, r.out);
      }
    }
  }

  /**
   The decoder's tables and the format agree on every stream but those that the tables read to an end, though with a
   length symbol of no meaning or with bits that are no code.
   */
  lemma CleanStream(bits: seq<bool>, zlib: bool, wrapping: bool)
    ensures Decoding(bits, zlib, wrapping) == Clean(StreamReading(bits, zlib, wrapping))
  {
    hide Blocks, TableBlocks, Field, ZlibHeaderOk;
    CleanBlocks(bits, 0, []);
    CleanBlocks(bits, 16, []);
  }

  // ----- when a lookup is not clean -----

  /** Fifteen bits from pos on, with zeros past the end. */
  ghost function Window(bits: seq<bool>, pos: nat): (w: seq<bool>)
    requires pos <= |bits|
    ensures |w| == 15
  {
    (bits[pos..] + seq(15, _ => false))[..15]
  }

  /** A complete code has a code word for any fifteen bits. */
  lemma CompleteIsClean(lens: seq<nat>, bits: seq<bool>, pos: nat)
    requires LengthsOk(lens) && Kraft(lens) == 32768 && TakenAt(lens, bits, pos).Some?
    ensures TakenAt(lens, bits, pos).value.clean
  {
    if !TakenAt(lens, bits, pos).value.clean {
      hide TakenAt, Symbol, Kraft, CodeBits;
      var s := CompleteDecodes(lens, Window(bits, pos));
      CodeOrOnTheWay(lens, bits, pos, s);
      NoCodeFits(lens, bits, pos);
      assert false;
    }
  }

  /** A lookup in a code that is accepted gives no symbol of it only if there is at most one. */
  lemma UncleanLookup(lens: seq<nat>, bits: seq<bool>, pos: nat)
    requires CodeOk(lens) && TakenAt(lens, bits, pos).Some? && !TakenAt(lens, bits, pos).value.clean
    ensures AtMostOneUsed(lens) && TakenAt(lens, bits, pos).value.sym == 0
    ensures forall s: nat :: !Codeword(lens, s, bits, pos)
  {
    hide Kraft, Codeword;
    if Kraft(lens) == 32768 {
      CompleteIsClean(lens, bits, pos);
      assert false;
    }
    NoCodeFits(lens, bits, pos);
  }

  /** A code that the window begins with is there, or the end of the bits is on the way to it. */
  lemma CodeOrOnTheWay(lens: seq<nat>, bits: seq<bool>, pos: nat, s: nat)
    requires pos <= |bits| && Used(lens, s) && CodeBits(lens, s) <= Window(bits, pos)
    ensures Codeword(lens, s, bits, pos)
      || (|bits| < pos + 15 && forall n :: 0 <= n <= |bits| - pos ==> Going(lens, bits, pos, n))
  {
    var c := CodeBits(lens, s);
    var w := Window(bits, pos);
    assert |c| == lens[s];
    hide CodeBits;
    if pos + |c| <= |bits| {
      assert bits[pos..pos + |c|] == w[..|c|];
    } else {
      forall n | 0 <= n <= |bits| - pos ensures Going(lens, bits, pos, n) {
        assert bits[pos..pos + n] == w[..n] == c[..n];
      }
    }
  }

  /** With neither, the lookup is not clean only for want of a code. */
  lemma NoCodeFits(lens: seq<nat>, bits: seq<bool>, pos: nat)
    requires TakenAt(lens, bits, pos).Some? && !TakenAt(lens, bits, pos).value.clean
    ensures pos <= |bits| && forall s: nat :: !Codeword(lens, s, bits, pos)
    ensures |bits| < pos + 15 ==> exists n :: 0 <= n <= |bits| - pos && !Going(lens, bits, pos, n)
  {
    hide Going, Codeword;
    var n :| n == TakenAt(lens, bits, pos).value.len;
    if |bits| < pos + 15 {
      assert Strays(lens, bits, pos, n);
    }
  }

  // ----- lookups see only the bits they take -----

  lemma GoingBack(lens: seq<nat>, bits: seq<bool>, pos: nat, m: int, n: int)
    requires Going(lens, bits, pos, n) && 0 <= m <= n
    ensures Going(lens, bits, pos, m)
  {
    hide CodeBits;
    var s: nat :| Used(lens, s) && n < lens[s] && bits[pos..pos + n] <= CodeBits(lens, s);
    assert bits[pos..pos + m] == bits[pos..pos + n][..m];
  }

  /** The lookup strays at one place only. */
  lemma StrayTaken(lens: seq<nat>, bits: seq<bool>, pos: nat, n: nat)
    requires Strays(lens, bits, pos, n) && Symbol(lens, bits, pos).None?
    ensures TakenAt(lens, bits, pos) == Some(Taken(0, n, false))
  {
    hide Symbol, Going;
    var m := TakenAt(lens, bits, pos).value.len;
    assert Strays(lens, bits, pos, m);
    if m < n {
      GoingBack(lens, bits, pos, m, n - 1);
    } else if n < m {
      GoingBack(lens, bits, pos, n, m - 1);
    }
  }

  lemma NoSymbol(lens: seq<nat>, bits: seq<bool>, pos: nat)
    requires forall s: nat :: !Codeword(lens, s, bits, pos)
    ensures Symbol(lens, bits, pos).None?
  {
  }

  /** Bits that agree with the window as far as its lookup takes them give the same. */
  lemma TakenHere(lens: seq<nat>, w: seq<bool>, bits: seq<bool>, pos: nat, t: Taken)
    requires Feasible(lens) && TakenAt(lens, w, 0) == Some(t) && |w| == 15
    requires pos + t.len <= |bits| && bits[pos..pos + t.len] == w[..t.len]
    requires t.len == 0 ==> pos + 15 <= |bits| && bits[pos..pos + 15] == w
    ensures TakenAt(lens, bits, pos) == Some(t)
  {
    hide Kraft, CodeBits, Symbol, Going;
    if t.clean {
      var s := Symbol(lens, w, 0).value;
      assert Codeword(lens, s, w, 0);
      SymbolIs(lens, s, bits, pos);
    } else if t.len > 0 {
      StrayHere(lens, w, bits, pos, t.len);
    } else {
      NothingHere(lens, w, bits, pos);
    }
  }

  lemma StrayHere(lens: seq<nat>, w: seq<bool>, bits: seq<bool>, pos: nat, n: nat)
    requires Strays(lens, w, 0, n) && Symbol(lens, w, 0).None? && pos + n <= |bits| && bits[pos..pos + n] == w[..n]
    ensures TakenAt(lens, bits, pos) == Some(Taken(0, n, false))
  {
    hide CodeBits, OnTheWay, TakenAt;
    assert bits[pos..pos + (n - 1)] == w[..n][..n - 1] == w[0..n - 1];
    assert w[0..n] == w[..n];
    assert Strays(lens, bits, pos, n);
    forall s: nat ensures !Codeword(lens, s, bits, pos) {
      if Codeword(lens, s, bits, pos) {
        StrayNoCode(lens, w, bits, pos, n, s);
      }
    }
    NoSymbol(lens, bits, pos);
    StrayTaken(lens, bits, pos, n);
  }

  lemma StrayNoCode(lens: seq<nat>, w: seq<bool>, bits: seq<bool>, pos: nat, n: nat, s: nat)
    requires n <= |w| && pos + n <= |bits| && bits[pos..pos + n] == w[..n] && !OnTheWay(lens, w[..n])
    requires Codeword(lens, s, bits, pos)
    ensures Codeword(lens, s, w, 0)
  {
    var c := CodeBits(lens, s);
    assert |c| == lens[s];
    if n < |c| {
      CodeAhead(lens, bits, pos, n, s);
      assert false;
    } else {
      hide CodeBits;
      assert w[0..|c|] == w[..n][..|c|] == bits[pos..pos + n][..|c|] == bits[pos..pos + |c|];
    }
  }

  lemma CodeAhead(lens: seq<nat>, bits: seq<bool>, pos: nat, n: nat, s: nat)
    requires Codeword(lens, s, bits, pos) && n < lens[s]
    ensures pos + n <= |bits| && OnTheWay(lens, bits[pos..pos + n])
  {
    var c := CodeBits(lens, s);
    assert |c| == lens[s];
    hide CodeBits;
    assert bits[pos..pos + n] == bits[pos..pos + |c|][..n];
  }

  lemma StraysSame(lens: seq<nat>, w: seq<bool>, bits: seq<bool>, pos: nat, n: nat)
    requires |w| == 15 && pos + 15 <= |bits| && bits[pos..pos + 15] == w && Strays(lens, bits, pos, n)
    ensures Strays(lens, w, 0, n)
  {
    hide OnTheWay;
    assert w[0..n] == bits[pos..pos + n];
    assert w[0..n - 1] == bits[pos..pos + (n - 1)];
  }

  lemma NothingHere(lens: seq<nat>, w: seq<bool>, bits: seq<bool>, pos: nat)
    requires TakenAt(lens, w, 0) == Some(Taken(0, 0, false)) && |w| == 15 && LengthsOk(lens)
    requires pos + 15 <= |bits| && bits[pos..pos + 15] == w
    ensures TakenAt(lens, bits, pos) == Some(Taken(0, 0, false))
  {
    NoneTaken(lens, w);
    hide CodeBits, Going, TakenAt, Symbol;
    forall s: nat ensures !Codeword(lens, s, bits, pos) {
      if Codeword(lens, s, bits, pos) {
        CodeSame(lens, w, bits, pos, s);
      }
    }
    NoSymbol(lens, bits, pos);
    forall n: nat ensures !Strays(lens, bits, pos, n) {
      if Strays(lens, bits, pos, n) {
        StraysSame(lens, w, bits, pos, n);
      }
    }
    TakesNone(lens, bits, pos);
  }

  lemma CodeSame(lens: seq<nat>, w: seq<bool>, bits: seq<bool>, pos: nat, s: nat)
    requires |w| == 15 && pos + 15 <= |bits| && bits[pos..pos + 15] == w && Codeword(lens, s, bits, pos)
    requires LengthsOk(lens)
    ensures Codeword(lens, s, w, 0)
  {
    CodeLength(lens, s);
    hide CodeBits;
    assert w[0..lens[s]] == bits[pos..pos + lens[s]];
  }

  lemma NoneTaken(lens: seq<nat>, w: seq<bool>)
    requires TakenAt(lens, w, 0) == Some(Taken(0, 0, false))
    ensures forall s: nat :: !Codeword(lens, s, w, 0)
    ensures forall n: nat :: !Strays(lens, w, 0, n)
  {
    hide Codeword;
    forall n: nat ensures !Strays(lens, w, 0, n) {
      if Strays(lens, w, 0, n) {
        StrayTaken(lens, w, 0, n);
        assert false;
      }
    }
  }

  lemma TakesNone(lens: seq<nat>, bits: seq<bool>, pos: nat)
    requires Symbol(lens, bits, pos).None? && forall n: nat :: !Strays(lens, bits, pos, n)
    ensures TakenAt(lens, bits, pos) == if pos + 15 <= |bits| then Some(Taken(0, 0, false)) else None
  {
    hide Symbol, Going;
  }

  lemma CodeLength(lens: seq<nat>, s: nat)
    requires LengthsOk(lens) && Used(lens, s)
    ensures |CodeBits(lens, s)| == lens[s] <= 15
  {
  }
}
