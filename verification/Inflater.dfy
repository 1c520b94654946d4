/** The decoder: a coroutine that stops when its input or its room for output runs out, and goes on from there. */
module Inflater {
  import opened Bits
  import opened CanonicalCode
  import opened Deflate
  import opened Division
  import opened DecodeTable
  import opened BitReader
  import opened SymbolReader
  import opened OutputWindow
  import opened TableDecoding
  import opened InflateSpec
  import opened InflateSteps
  import BlockHeaders
  import Adler32

  /** A code's lengths and the tables built from them. */
  class CodeTable {
    const sizes: array<nat>
    const lookUp: array<i16>
    const tree: array<i16>

    constructor (n: nat)
      requires 19 <= n <= 288
      ensures Shape() && sizes.Length == n && fresh(Arrays())
    {
      sizes := new nat[n](_ => 0);
      lookUp := new i16[1024](_ => 0);
      tree := new i16[2 * n](_ => 0);
    }

    ghost predicate Shape() {
      && 19 <= sizes.Length <= 288 && lookUp.Length == 1024 && tree.Length == 2 * sizes.Length && lookUp != tree
      && sizes as object != lookUp && sizes as object != tree
    }

    ghost function Arrays(): set<object> {
      {sizes as object, lookUp, tree}
    }

    lemma Own()
      ensures Arrays() == {sizes as object, lookUp, tree}
    {
    }

    /** The tables decode the code with these lengths. */
    ghost predicate Holds(lens: seq<nat>)
      reads lookUp, tree
    {
      CodeOk(lens) && Feasible(lens) && |lens| <= 288 && TablesFor(lens, lookUp[..], tree[..])
    }

    /** Builds the tables for the first n lengths, unless they are no code. */
    method Build(n: nat) returns (ok: bool)
      requires Shape() && n <= sizes.Length && LengthsOk(sizes[..n])
      modifies lookUp, tree
      ensures ok <==> CodeOk(sizes[..n])
      ensures ok ==> Holds(sizes[..n])
    {
      hide CodeOk, Feasible, TablesFor, LengthsOk;
      ok := BuildTable(sizes, n, lookUp, tree);
      if ok {
        CodeOkFeasible(sizes[..n]);
      }
    }
  }

  /** Where the decoder is: at a point where it can stop, or about to do the next thing. */
  datatype State =
    | Start | ZHead0 | ZHead1 | BlockStart
    | StoredHead | StoredBits | StoredOut | StoredCopy
    | Counts | ClSizes | CodeLengths | CodeRun
    | Symbols | LiteralOut | LengthBits | DistSymbol | DistBits | CopyStart | Copying
    | StreamEnd | Trailer | Finished | Failed

  /** The decoder's answers; the last one stands for an assertion that fails. */
  datatype Status = Done | NeedsMoreInput | HasMoreOutput | FailedForGood | CannotMakeProgress | BadParam
      | AdlerMismatch | AssertFailed

  datatype Outcome = Go | NeedInput | NeedOutput | Ended | Bad | Aborted

  /** The order of the states between two of which no input is taken and no output made. */
  function Rank(s: State): nat {
    match s
    case Start => 30
    case ZHead0 => 29
    case ZHead1 => 28
    case Counts => 27
    case ClSizes => 26
    case CodeRun => 25
    case CodeLengths => 24
    case LengthBits => 20
    case DistSymbol => 19
    case DistBits => 18
    case CopyStart => 17
    case Copying => 16
    case Symbols => 15
    case LiteralOut => 14
    case StoredHead => 13
    case StoredOut => 12
    case StoredBits => 11
    case StoredCopy => 10
    case BlockStart => 9
    case StreamEnd => 3
    case Trailer => 2
    case Finished => 1
    case Failed => 0
  }

  /** The goal of a decoder: through a ring, a match from before the output reads whatever the ring holds. */
  ghost function GoalOf(r: Reading, wrapping: bool): Option<Reading> {
    if wrapping && r.Before? then None else Some(r)
  }

  class Inflater {
    const r: BitReader
    const o: OutputWindow
    const zlib: bool
    const t0: CodeTable
    const t1: CodeTable
    const t2: CodeTable
    const lenCodes: array<nat>
    const raw: array<nat>
    ghost const goal: Option<Reading>
    var state: State
    var filling: bool
    var zhdr0: nat
    var zAdler: nat
    var checkAdler: nat
    var final: nat
    var dist: nat
    var counter: nat
    var numExtra: nat
    var distFromStart: nat
    var size0: nat
    var size1: nat
    var size2: nat
    ghost var ll: seq<nat>
    ghost var d: seq<nat>
    /** The output that has gone into the checksum. */
    ghost var summed: seq<byte>

    /** A decoder for the given stream, with a ring of the given size or a buffer for all of the output. */
    constructor (ghost stream: seq<byte>, zlib: bool, wrapping: bool, size: nat)
      requires wrapping ==> 32768 <= size
      ensures Shape() && Ready() && r.stream == stream && this.zlib == zlib && r.taken == 0
      ensures o.wrapping == wrapping && o.modulus == (if wrapping then size else SIZE_MAX) && o.out == [] == summed
      ensures fresh(r) && fresh(o) && fresh(Arrays())
    {
      hide *;
      r := new BitReader(stream);
      o := new OutputWindow(wrapping, size);
      this.zlib := zlib;
      t0 := new CodeTable(288);
      t1 := new CodeTable(32);
      t2 := new CodeTable(19);
      lenCodes := new nat[457](_ => 0);
      raw := new nat[4](_ => 0);
      goal := GoalOf(StreamReading(ByteBits(stream), zlib, wrapping), wrapping);
      state, filling, zhdr0, zAdler, checkAdler := Start, false, 0, 1, 1;
      final, dist, counter, numExtra, distFromStart := 0, 0, 0, 0, 0;
      size0, size1, size2, ll, d, summed := 0, 0, 0, [], [], [];
      new;
      t0.Own();
      t1.Own();
      t2.Own();
      Shaped();
      SizeMax();
      ReadyAtFirst();
    }

    /** The arrays are different. */
    lemma Shaped()
      requires t0.Shape() && t1.Shape() && t2.Shape() && t0.sizes.Length == 288 && t1.sizes.Length == 32
      requires t2.sizes.Length == 19
      requires lenCodes.Length == 457 && raw.Length == 4 && (o.wrapping ==> 32768 <= o.modulus)
      requires t0.Arrays() !! t1.Arrays() !! t2.Arrays() !! {lenCodes as object} !! {raw as object}
      requires goal == GoalOf(StreamReading(ByteBits(r.stream), zlib, o.wrapping), o.wrapping)
      ensures Shape() && Arrays() == t0.Arrays() + t1.Arrays() + t2.Arrays() + {lenCodes as object, raw}
    {
      hide StreamReading;
    }

    lemma SizeMax()
      ensures 0 < SIZE_MAX
    {
    }

    lemma ReadyAtFirst()
      requires Shape() && r.Valid() && r.Idle() && r.numBits == 0 && r.taken == 0 && 0 < o.modulus && state.Start?
      requires o.out == [] == summed
      requires checkAdler == 1 && zAdler == 1
      ensures Ready()
    {
      hide BitReader.Valid, Inflater.Shape, Inflater.BodyControl, Inflater.HeaderControl, Inflater.StoredControl;
      BasePosFirst();
      OutsideBody();
      OutsideHeader();
      OutsideStored();
    }

    lemma BasePosFirst()
      requires Shape()
      ensures t2.sizes.Length == 19 && lenCodes.Length == 457 && raw.Length == 4
    {
    }

    lemma OwnArrays()
      ensures {lenCodes as object, raw, t0.sizes, t0.lookUp, t0.tree, t1.sizes, t1.lookUp, t1.tree, t2.sizes,
          t2.lookUp, t2.tree} == Arrays()
    {
    }

    /** The rest of a stream follows what has been taken of it. */
    lemma RestFollows(src: seq<byte>)
      requires r.stream == src && r.taken <= |src|
      ensures r.Follows(src[r.taken..])
    {
    }

    /** Before the first byte of output any buffer will do. */
    lemma FitsFirst(b: seq<byte>, size: nat)
      requires o.out == [] && 0 < o.modulus == if o.wrapping then size else SIZE_MAX
      ensures Fits(b, 0, size)
    {
    }

    ghost function Arrays(): set<object> {
      t0.Arrays() + t1.Arrays() + t2.Arrays() + {lenCodes as object, raw}
    }

    ghost predicate Shape() {
      && t0.Shape() && t1.Shape() && t2.Shape() && t0.sizes.Length == 288 && t1.sizes.Length == 32
          && t2.sizes.Length == 19
      && lenCodes.Length == 457 && raw.Length == 4
      && t0.Arrays() !! t1.Arrays() !! t2.Arrays() !! {lenCodes as object} !! {raw as object}
      && goal == GoalOf(StreamReading(r.Bits(), zlib, o.wrapping), o.wrapping)
      && (o.wrapping ==> 32768 <= o.modulus)
    }

    /** What holds in every state. */
    ghost predicate Base()
      reads r, o, o.buf
    {
      && Shape() && r.Valid() && r.numBits <= 61 && o.Valid() && o.buf !in Arrays()
    }

    ghost predicate Fin()
      reads `final
    {
      final % 2 == 1
    }

    /** What is left of the block leads to the goal. */
    ghost predicate Rest(rest: Reading)
      reads `final
    {
      Toward(goal, Fin(), r.Bits(), rest)
    }

    /** Both codes of the block have their tables. */
    ghost predicate Tables()
      reads `ll, `d, t0.lookUp, t0.tree, t1.lookUp, t1.tree
    {
      t0.Holds(ll) && t1.Holds(d) && |d| <= 32
    }

    // ----- the states of a block with Huffman codes -----

    ghost predicate AtSymbols()
      reads `ll, `d, `final, `filling, r, o, t0.lookUp, t0.tree, t1.lookUp, t1.tree
      requires 0 <= r.Pos()
    {
      && Tables() && Rest(TableBody(ll, d, r.Bits(), r.Pos(), o.out))
      && (filling ==> r.numBits < 15 && Beyond(ll, r.Bits(), r.Pos(), r.numBits))
    }

    ghost predicate AtLiteralOut()
      reads `ll, `d, `final, `counter, r, o, t0.lookUp, t0.tree, t1.lookUp, t1.tree
      requires 0 <= r.Pos()
    {
      Tables() && counter < 256 && Rest(TableBody(ll, d, r.Bits(), r.Pos(), o.out + [counter]))
    }

    ghost predicate AtLengthBits()
      reads `ll, `d, `final, `counter, `numExtra, r, o, t0.lookUp, t0.tree, t1.lookUp, t1.tree
      requires 0 <= r.Pos()
    {
      Tables() && numExtra <= 13 && Rest(AtLenExtra(ll, d, r.Bits(), r.Pos(), o.out, counter, numExtra))
    }

    ghost predicate AtDistSymbol()
      reads `ll, `d, `final, `filling, `counter, r, o, t0.lookUp, t0.tree, t1.lookUp, t1.tree
      requires 0 <= r.Pos()
    {
      && Tables() && Rest(AtDist(ll, d, r.Bits(), r.Pos(), o.out, counter))
      && (filling ==> r.numBits < 15 && Beyond(d, r.Bits(), r.Pos(), r.numBits))
    }

    ghost predicate AtDistBits()
      reads `ll, `d, `final, `counter, `dist, `numExtra, r, o, t0.lookUp, t0.tree, t1.lookUp, t1.tree
      requires 0 <= r.Pos()
    {
      && Tables() && numExtra <= 13 && dist + Pow2(numExtra) <= 32769
      && Rest(AtDistExtra(ll, d, r.Bits(), r.Pos(), o.out, counter, dist, numExtra))
    }

    ghost predicate AtCopyStart()
      reads `ll, `d, `final, `counter, `dist, r, o, t0.lookUp, t0.tree, t1.lookUp, t1.tree
      requires 0 <= r.Pos()
    {
      Tables() && dist <= 32768 && Rest(AtCopy(ll, d, r.Bits(), r.Pos(), o.out, counter, dist))
    }

    /** After n more bytes of the match the rest of the block leads to the goal. */
    ghost predicate CopyGoes(pos: nat, out: seq<byte>, n: nat)
      reads `ll, `d, `final, `dist
    {
      goal.Some? ==> 1 <= dist <= |out| && Rest(TableBody(ll, d, r.Bits(), pos, Copy(out, n, dist)))
    }

    /** A byte of a match is to be put out, and counter more after it. */
    ghost predicate AtCopying()
      reads `ll, `d, `final, `counter, `dist, `distFromStart, r, o, t0.lookUp, t0.tree, t1.lookUp, t1.tree
      requires 0 <= r.Pos() && 0 < o.modulus
    {
      && Tables() && dist <= 32768
      && distFromStart % o.modulus == |o.out| % o.modulus && (!o.wrapping ==> 1 <= dist <= distFromStart == |o.out|)
      && CopyGoes(r.Pos(), o.out, counter + 1)
    }

    // ----- the states of a stored block -----

    /** Byte j of a stored block's header has been read. */
    ghost predicate RawRead(start: nat, j: nat)
      reads raw
      requires j < raw.Length
    {
      raw[j] < 256 && Field(r.Bits(), start + 8 * j, 8) == Some(raw[j])
    }

    ghost predicate AtStoredHead()
      reads `final, `counter, raw, r, o
      requires 0 <= r.Pos() && raw.Length == 4
    {
      && counter < 4 && 8 * counter <= r.Pos() && r.Pos() % 8 == 0
      && Rest(TableStored(r.Bits(), r.Pos() - 8 * counter, o.out))
      && var start := r.Pos() - 8 * counter;
         forall j :: 0 <= j < counter ==> RawRead(start, j)
    }

    ghost predicate AtStoredBits()
      reads `final, `counter, r, o
      requires 0 <= r.Pos()
    {
      r.Pos() % 8 == 0 && Rest(TableBytes(r.Bits(), r.Pos(), o.out, counter))
    }

    ghost predicate AtStoredOut()
      reads `final, `counter, `dist, r, o
      requires 0 <= r.Pos()
    {
      r.Pos() % 8 == 0 && counter > 0 && dist < 256 && Rest(TableBytes(r.Bits(), r.Pos(), o.out + [dist], counter - 1))
    }

    ghost predicate AtStoredCopy()
      reads `final, `counter, r, o
      requires 0 <= r.Pos()
    {
      r.numBits == 0 && Rest(TableBytes(r.Bits(), r.Pos(), o.out, counter))
    }

    // ----- the states of a dynamic block's header -----

    /** How many bits of the three counts have been read. */
    function CountsBits(i: nat): nat {
      if i == 0 then 0 else if i == 1 then 5 else 10
    }

    ghost predicate CountsLead(pos: nat, out: seq<byte>)
      reads `final, `counter, `size0, `size1
    {
      && counter < 3 && CountsBits(counter) <= pos
      && var start := pos - CountsBits(counter);
         && Rest(TableDynamic(r.Bits(), start, out))
         && (counter > 0 ==> 257 <= size0 <= 288 && Field(r.Bits(), start, 5) == Some((size0 - 257) as nat))
         && (counter > 1 ==> 1 <= size1 <= 32 && Field(r.Bits(), start + 5, 5) == Some((size1 - 1) as nat))
    }

    ghost predicate AtCounts()
      reads `final, `counter, `size0, `size1, r, o
      requires 0 <= r.Pos()
    {
      CountsLead(r.Pos(), o.out)
    }

    ghost predicate SizesOk()
      reads `size0, `size1
    {
      257 <= size0 <= 288 && 1 <= size1 <= 32
    }

    ghost predicate ClLeads(pos: nat, out: seq<byte>, sizes: seq<nat>)
      reads `final, `counter, `size0, `size1, `size2
    {
      && SizesOk() && 4 <= size2 <= 19 && counter <= size2 && 3 * counter <= pos && |sizes| == 19
      && Rest(AtCl(r.Bits(), pos - 3 * counter, out, size0, size1, size2, sizes, counter))
    }

    ghost predicate AtClSizes()
      reads `final, `counter, `size0, `size1, `size2, r, o, t2.sizes
      requires 0 <= r.Pos() && t2.sizes.Length == 19
    {
      ClLeads(r.Pos(), o.out, t2.sizes[..]) && ClSizesOk()
    }

    /** The code length code and the first code lengths. */
    ghost predicate LengthsRead(cl: seq<nat>)
      reads `counter, `size0, `size1, lenCodes, t2.lookUp, t2.tree
      requires lenCodes.Length == 457
    {
      && SizesOk() && t2.Holds(cl) && |cl| == 19 && counter <= 457
      && forall i :: 0 <= i < counter ==> lenCodes[i] < 16
    }

    ghost predicate AtCodeLengths()
      reads `final, `counter, `size0, `size1, `filling, `ll, r, o, lenCodes, t2.lookUp, t2.tree
      requires 0 <= r.Pos() && lenCodes.Length == 457
    {
      && LengthsRead(ll) && Rest(AtLengths(r.Bits(), r.Pos(), o.out, size0, size1, ll, lenCodes[..counter]))
      && (filling ==> counter < size0 + size1 && r.numBits < 15 && Beyond(ll, r.Bits(), r.Pos(), r.numBits))
    }

    ghost predicate AtCodeRun()
      reads `final, `counter, `size0, `size1, `dist, `ll, r, o, lenCodes, t2.lookUp, t2.tree
      requires 0 <= r.Pos() && lenCodes.Length == 457
    {
      && LengthsRead(ll) && counter < size0 + size1 && 16 <= dist <= 18 && (dist == 16 ==> counter > 0)
      && Rest(AtRun(r.Bits(), r.Pos(), o.out, size0, size1, ll, lenCodes[..counter], dist))
    }

    // ----- the other states -----

    ghost predicate AtZHead1()
      reads `zhdr0, r, o
      requires 0 <= r.Pos()
    {
      r.numBits == 0 && r.Pos() == 8 && o.out == [] && zlib && zhdr0 < 256 && Field(r.Bits(), 0, 8) == Some(zhdr0)
    }

    ghost predicate AtBlockStart()
      reads r, o
      requires 0 <= r.Pos()
    {
      Leads(goal, TableBlocks(r.Bits(), r.Pos(), o.out))
    }

    ghost predicate AtStreamEnd()
      reads r, o
      requires 0 <= r.Pos()
    {
      Leads(goal, Complete(o.out, r.Pos(), true))
    }

    /** All of the output is there, and the blocks end before pos. */
    ghost predicate Whole(pos: int)
      reads o
    {
      goal.Some? ==> goal.value.Complete? && o.out == goal.value.out && pos == Aligned(goal.value.pos)
    }

    /** All of the output is there; counter bytes of the checksum have been read after the last byte of the blocks. */
    ghost predicate AtTrailer()
      reads `counter, `zAdler, r, o
      requires 0 <= r.Pos()
    {
      && zlib && r.numBits == 0 && counter <= 4 && 8 * counter <= r.Pos()
      && Whole(r.Pos() - 8 * counter)
      && TrailerIs(r.Bits(), r.Pos() - 8 * counter, counter, zAdler)
    }

    ghost predicate AtFinished()
      reads `zAdler, r, o
      requires 0 <= r.Pos()
    {
      && r.numBits == 0
      && Whole(r.Pos() - if zlib then 32 else 0)
      && (zlib ==> 32 <= r.Pos() && TrailerIs(r.Bits(), r.Pos() - 32, 4, zAdler))
    }

    // ----- steps -----

    ghost predicate BodyControl()
      requires 0 <= r.Pos() && 0 < o.modulus
      reads `state, `ll, `d, `final, `filling, `counter, `numExtra, `dist, `distFromStart, r, o, t0.lookUp, t0.tree
      reads t1.lookUp, t1.tree
    {
      match state
      case Symbols => AtSymbols()
      case LiteralOut => AtLiteralOut()
      case LengthBits => AtLengthBits()
      case DistSymbol => AtDistSymbol()
      case DistBits => AtDistBits()
      case CopyStart => AtCopyStart()
      case Copying => AtCopying()
      case _ => true
    }

    ghost predicate HeaderControl()
      requires 0 <= r.Pos() && t2.sizes.Length == 19 && lenCodes.Length == 457
      reads `state, `ll, `final, `filling, `counter, `dist, `size0, `size1, `size2, r, o, t2.lookUp, t2.tree, t2.sizes
      reads lenCodes
    {
      match state
      case Counts => AtCounts()
      case ClSizes => AtClSizes()
      case CodeLengths => AtCodeLengths()
      case CodeRun => AtCodeRun()
      case _ => true
    }

    ghost predicate StoredControl()
      requires 0 <= r.Pos() && raw.Length == 4
      reads `state, `final, `counter, `dist, r, o, raw
    {
      match state
      case StoredHead => AtStoredHead()
      case StoredBits => AtStoredBits()
      case StoredOut => AtStoredOut()
      case StoredCopy => AtStoredCopy()
      case _ => true
    }

    ghost predicate EdgeControl()
      requires 0 <= r.Pos()
      reads `state, `counter, `zAdler, `zhdr0, r, o
    {
      match state
      case Start => r.numBits == 0 && r.Pos() == 0 && o.out == []
      case ZHead0 => r.numBits == 0 && r.Pos() == 0 && o.out == [] && zlib
      case ZHead1 => AtZHead1()
      case BlockStart => AtBlockStart()
      case StreamEnd => AtStreamEnd()
      case Trailer => AtTrailer()
      case Finished => AtFinished()
      case Failed => Fails(goal)
      case _ => true
    }

    ghost predicate Control()
      requires 0 <= r.Pos() && 0 < o.modulus && Shape()
      reads `state, `ll, `d, `final, `filling, `counter, `numExtra, `dist, `distFromStart, `size0, `size1, `size2
      reads `zAdler, `zhdr0
      reads r, o, t0.lookUp, t0.tree, t1.lookUp, t1.tree, t2.lookUp, t2.tree, t2.sizes, lenCodes, raw
    {
      BodyControl() && HeaderControl() && StoredControl() && EdgeControl()
    }

    /** How many code lengths are still to be read. */
    function Left(): nat
      reads `state, `counter, `size0, `size1
    {
      if state.CodeLengths? && counter < size0 + size1 then size0 + size1 - counter else 0
    }

    /** Input, room for output and the order of the states measure what is left to do. */
    ghost predicate Less(a: int, b: int, c: nat, e: nat)
      reads `state, `counter, `size0, `size1, r, o
    {
      || r.Avail() < a
      || (r.Avail() == a && o.outEnd - o.outPos < b)
      || (r.Avail() == a && o.outEnd - o.outPos == b && Rank(state) < c)
      || (r.Avail() == a && o.outEnd - o.outPos == b && Rank(state) == c && Left() < e)
    }

    /** The stream ends at pos, with this output. */
    ghost predicate EndedAt(pos: int)
      reads o
    {
      goal.Some? ==> goal.value.Complete? && o.out == goal.value.out && pos == StreamBits()
    }

    /** The stream is too short, and this is all of its output: it lacks the rest of the blocks, or of the checksum. */
    ghost predicate TooShort()
      reads o
    {
      goal.Some? ==>
        || goal.value == Short(o.out)
        || (goal.value.Complete? && o.out == goal.value.out && 8 * |r.stream| < StreamBits())
    }

    /** The length of the whole stream in bits, if it has an end. */
    ghost function StreamBits(): nat
      requires Finite(goal)
    {
      Aligned(goal.value.pos) + if zlib then 32 else 0
    }

    /** Where the decoder stops for want of room. */
    predicate Full()
      reads `state
    {
      state.LiteralOut? || state.Copying? || state.StoredOut? || state.StoredCopy?
    }

    /** What a stop promises. */
    ghost predicate Stopped(out: Outcome)
      reads `state, r, o
    {
      && (out.NeedInput? ==> r.inPos == |r.src|)
      && (out.NeedInput? && Good(goal)
          ==> 8 * (r.taken + |r.src|) < if state.Trailer? then StreamBits() else Aligned(goal.value.pos))
      && (out.NeedInput? && r.taken + |r.src| == |r.stream| ==> TooShort())
      && (out.NeedOutput? ==> Full() && o.outPos == o.outEnd && Reaches(goal, r.Pos()) && Wants(goal, o.out))
      && (out.NeedInput? || out.NeedOutput? ==> Promises(goal, o.out))
      && (out.Bad? ==> state.Failed?) && (out.Ended? ==> state.Finished?)
          && (out.Aborted? ==> !Good(goal) && Overtaken(r.taken))
    }

    /** The blocks have an end, and more bytes than theirs have been taken. */
    ghost predicate Overtaken(taken: nat) {
      goal.Some? ==> goal.value.Complete? && Aligned(goal.value.pos) < 8 * taken
    }

    /** The input ends before what is needed does. */
    lemma InputShort(n: nat)
      requires r.Valid() && r.inPos == |r.src| && r.numBits < n && Reaches(goal, r.Pos() + n)
      requires Promises(goal, o.out) && (r.Pos() + r.numBits == |r.Bits()| ==> Lacks(goal, o.out))
      ensures Stopped(NeedInput)
    {
      hide Holds;
    }

    lemma OutputShort()
      requires Full() && o.outPos == o.outEnd && Reaches(goal, r.Pos())
      requires Promises(goal, o.out) && Wants(goal, o.out)
      ensures Stopped(NeedOutput)
    {
    }

    /** What holds between two steps. */
    ghost predicate Inv()
      reads `state, `ll, `d, `final, `filling, `counter, `numExtra, `dist, `distFromStart, `size0, `size1, `size2
      reads `zAdler, `zhdr0
      reads r, o, o.buf, t0.lookUp, t0.tree, t1.lookUp, t1.tree, t2.lookUp, t2.tree, t2.sizes, lenCodes, raw
    {
      Base() && Control()
    }

    lemma BasePos()
      requires Base()
      ensures 0 <= r.Pos() && 0 < o.modulus && Shape() && r.Valid() && o.Valid() && r.numBits <= 61
      ensures o.outPos <= o.outEnd
      ensures 0 <= r.Avail() && o.buf !in Arrays() && (o.wrapping ==> 32768 <= o.modulus)
      ensures raw.Length == 4 && t2.sizes.Length == 19 && lenCodes.Length == 457
    {
    }

    lemma Opened()
      requires Inv()
      ensures Base() && 0 <= r.Pos() && 0 < o.modulus && Shape() && Control()
    {
      BasePos();
    }

    predicate InBody()
      reads `state
    {
      state.Symbols? || state.LiteralOut? || state.LengthBits? || state.DistSymbol? || state.DistBits?
          || state.CopyStart? || state.Copying?
    }

    predicate InHeader()
      reads `state
    {
      state.Counts? || state.ClSizes? || state.CodeLengths? || state.CodeRun?
    }

    predicate InStored()
      reads `state
    {
      state.StoredHead? || state.StoredBits? || state.StoredOut? || state.StoredCopy?
    }

    lemma OutsideBody()
      requires !InBody() && 0 <= r.Pos() && 0 < o.modulus
      ensures BodyControl()
    {
    }

    lemma OutsideHeader()
      requires !InHeader() && 0 <= r.Pos() && t2.sizes.Length == 19 && lenCodes.Length == 457
      ensures HeaderControl()
    {
    }

    lemma OutsideStored()
      requires !InStored() && 0 <= r.Pos() && raw.Length == 4
      ensures StoredControl()
    {
    }

    lemma Inside()
      requires 0 <= r.Pos() && (InBody() || InHeader() || InStored())
      ensures EdgeControl()
    {
    }

    /** The state's own group decides. */
    lemma EnterBody()
      requires Base() && InBody() && 0 <= r.Pos() && 0 < o.modulus && BodyControl()
      ensures Inv()
    {
      BasePos();
      hide Inflater.BodyControl, Inflater.HeaderControl, Inflater.StoredControl, Inflater.EdgeControl, BitReader.Valid;
      hide OutputWindow.Valid;
      OutsideHeader();
      OutsideStored();
      Inside();
    }

    lemma EnterHeader()
      requires Base() && InHeader() && 0 <= r.Pos() && t2.sizes.Length == 19 && lenCodes.Length == 457
      requires HeaderControl()
      ensures Inv()
    {
      BasePos();
      hide Inflater.BodyControl, Inflater.HeaderControl, Inflater.StoredControl, Inflater.EdgeControl, BitReader.Valid;
      hide OutputWindow.Valid;
      OutsideBody();
      OutsideStored();
      Inside();
    }

    lemma EnterStored()
      requires Base() && InStored() && 0 <= r.Pos() && raw.Length == 4 && StoredControl()
      ensures Inv()
    {
      BasePos();
      hide Inflater.BodyControl, Inflater.HeaderControl, Inflater.StoredControl, Inflater.EdgeControl, BitReader.Valid;
      hide OutputWindow.Valid;
      OutsideBody();
      OutsideHeader();
      Inside();
    }

    lemma EnterEdge()
      requires Base() && !InBody() && !InHeader() && !InStored() && 0 <= r.Pos() && EdgeControl()
      ensures Inv()
    {
      BasePos();
      hide Inflater.BodyControl, Inflater.HeaderControl, Inflater.StoredControl, Inflater.EdgeControl, BitReader.Valid;
      hide OutputWindow.Valid;
      OutsideBody();
      OutsideHeader();
      OutsideStored();
    }

    /** Less input is left. */
    lemma TookInput(a: int, b: int, c: nat, e: nat)
      requires r.Avail() < a
      ensures Less(a, b, c, e)
    {
    }

    /** Less room is left, and no more input. */
    lemma MadeOutput(a: int, b: int, c: nat, e: nat)
      requires r.Avail() <= a && o.outEnd - o.outPos < b
      ensures Less(a, b, c, e)
    {
    }

    /** A later state, and no more input or room. */
    lemma Went(a: int, b: int, c: nat, e: nat, to: nat)
      requires r.Avail() <= a && o.outEnd - o.outPos <= b && Rank(state) == to < c
      ensures Less(a, b, c, e)
    {
    }

    lemma NoTokens()
      ensures Rank(Symbols) == 15 && Rank(LiteralOut) == 14 && Rank(LengthBits) == 20 && Rank(DistSymbol) == 19
      ensures Rank(DistBits) == 18 && Rank(CopyStart) == 17 && Rank(Copying) == 16
    {
    }

    // ----- the end of a block -----

    lemma EnterBlockEnd()
      requires Base() && 0 <= r.Pos()
      requires state.StreamEnd? || state.BlockStart?
      requires state.StreamEnd? ==> Leads(goal, Complete(o.out, r.Pos(), true))
      requires state.BlockStart? ==> Leads(goal, TableBlocks(r.Bits(), r.Pos(), o.out))
      ensures Inv()
    {
      hide Inflater.Base, Inflater.Inv, Inflater.Shape, Leads, TableBlocks;
      BasePos();
      EnterEdge();
    }

    lemma RestEnds()
      requires 0 <= r.Pos() && Rest(Complete(o.out, r.Pos(), true))
      ensures final % 2 == 1 ==> Leads(goal, Complete(o.out, r.Pos(), true))
      ensures final % 2 != 1 ==> Leads(goal, TableBlocks(r.Bits(), r.Pos(), o.out))
    {
      hide Toward, Leads, TableBlocks;
      BlockEnds(goal, Fin(), r.Bits(), r.Pos(), o.out);
    }

    /** The end of a block has been reached. */
    method EndBlock()
      requires Base() && 0 <= r.Pos() && Rest(Complete(o.out, r.Pos(), true))
      modifies `state
      ensures Inv() && (state.StreamEnd? || state.BlockStart?)
    {
      hide *;
      RestEnds();
      state := if final % 2 == 1 then StreamEnd else BlockStart;
      EnterBlockEnd();
    }

    // ----- literal and length symbols -----

    lemma Means(pos: nat, out: seq<byte>, sym: nat)
      requires sym < 288 && Rest(AtSymbol(ll, d, r.Bits(), pos, out, sym))
      ensures sym < 256 ==> Rest(TableBody(ll, d, r.Bits(), pos, out + [sym]))
      ensures sym == 256 ==> Rest(Complete(out, pos, true))
      ensures sym > 256 ==> Rest(AtLenExtra(ll, d, r.Bits(), pos, out, LengthBaseAt(sym - 257),
          LengthExtraAt(sym - 257)))
    {
      hide Toward, TableBody, AtLenExtra, AtSymbol;
      SymbolMeans(goal, Fin(), ll, d, r.Bits(), pos, out, sym);
    }

    lemma EnterLengthBits()
      requires Base() && state.LengthBits? && Tables() && numExtra <= 13
      requires 0 <= r.Pos() && Rest(AtLenExtra(ll, d, r.Bits(), r.Pos(), o.out, counter, numExtra))
      ensures Inv()
    {
      hide Inflater.Base, Inflater.Inv, Inflater.Tables, Inflater.Rest, Inflater.Shape, TableBody, Beyond, AtLenExtra;
      hide AtDist, AtDistExtra, AtCopy, Copy;
      BasePos();
      EnterBody();
    }

    lemma EnterSymbols()
      requires Base() && state.Symbols? && Tables()
      requires 0 <= r.Pos() && Rest(TableBody(ll, d, r.Bits(), r.Pos(), o.out))
      requires filling ==> r.numBits < 15 && Beyond(ll, r.Bits(), r.Pos(), r.numBits)
      ensures Inv()
    {
      hide Inflater.Base, Inflater.Inv, Inflater.Tables, Inflater.Rest, Inflater.Shape, TableBody, Beyond, AtLenExtra;
      hide AtDist, AtDistExtra, AtCopy, Copy;
      BasePos();
      EnterBody();
    }

    lemma EnterLiteralOut()
      requires Base() && state.LiteralOut? && Tables() && counter < 256
      requires 0 <= r.Pos() && Rest(TableBody(ll, d, r.Bits(), r.Pos(), o.out + [counter]))
      ensures Inv()
    {
      hide Inflater.Base, Inflater.Inv, Inflater.Tables, Inflater.Rest, Inflater.Shape, TableBody, Beyond, AtLenExtra;
      hide AtDist, AtDistExtra, AtCopy, Copy;
      BasePos();
      EnterBody();
    }

    /** A symbol that is no literal has been decoded. */
    method AfterSymbol(sym: nat)
      requires Base() && Tables() && 256 <= sym < 288 && 0 <= r.Pos()
      requires Rest(AtSymbol(ll, d, r.Bits(), r.Pos(), o.out, sym))
      modifies `state, `counter, `numExtra, `filling
      ensures Inv()
    {
      hide *;
      Means(r.Pos(), o.out, sym);
      filling := false;
      if sym == 256 {
        EndBlock();
      } else {
        numExtra := LengthExtraAt(sym - 257);
        counter := LengthBaseAt(sym - 257);
        state := LengthBits;
        EnterLengthBits();
      }
    }

    lemma OpenSymbols()
      requires Inv() && state.Symbols?
      ensures Base() && 0 <= r.Pos() && Tables() && Rest(TableBody(ll, d, r.Bits(), r.Pos(), o.out))
      ensures filling ==> r.numBits < 15 && Beyond(ll, r.Bits(), r.Pos(), r.numBits)
    {
      Opened();
      hide BitReader.Valid, OutputWindow.Valid, Inflater.Tables, Inflater.Rest, Inflater.Shape, TableBody, Beyond;
      hide AtLenExtra, AtDist, AtDistExtra, AtCopy, Copy;
    }

    lemma TableFacts()
      requires Tables()
      ensures Feasible(ll) && |ll| <= 288 && TablesFor(ll, t0.lookUp[..], t0.tree[..])
      ensures Feasible(d) && |d| <= 32 && TablesFor(d, t1.lookUp[..], t1.tree[..])
    {
      hide Feasible, TablesFor, CodeOk;
    }

    lemma Chosen(pos: nat, out: seq<byte>, sym: nat, len: nat)
      requires Rest(TableBody(ll, d, r.Bits(), pos, out)) && Right(ll, r.Bits(), pos, sym, len)
      ensures Rest(AtSymbol(ll, d, r.Bits(), pos + len, out, sym))
    {
      hide Toward, TableBody, AtSymbol, Right;
      SymbolRead(goal, Fin(), ll, d, r.Bits(), pos, out, sym, len);
    }

    lemma SymbolShort()
      requires r.Valid() && 0 <= r.Pos() && r.inPos == |r.src| && Rest(TableBody(ll, d, r.Bits(), r.Pos(), o.out))
      requires Beyond(ll, r.Bits(), r.Pos(), r.numBits)
      ensures Stopped(NeedInput)
    {
      hide Toward, TableBody, Beyond, BitReader.Valid, Inflater.Stopped;
      SymbolWaits(goal, Fin(), ll, d, r.Bits(), r.Pos(), o.out, r.numBits);
      InputShort(r.numBits + 1);
    }

    /** One symbol, when there is little input or room left. */
    method SlowSymbol() returns (out: Outcome)
      requires Inv() && state.Symbols?
      modifies `state, `counter, `numExtra, `filling, r`inPos, r`numBits, r`bitBuf
      ensures Inv() && Stopped(out) && (out.Go? || out.NeedInput?)
      ensures out.Go? ==> Less(old(r.Avail()), old(o.outEnd - o.outPos), 15, 0)
    {
      hide *;
      OpenSymbols();
      BasePos();
      TableFacts();
      NoTokens();
      ghost var pos, a, b := r.Pos(), r.Avail(), o.outEnd - o.outPos;
      var ok, sym;
      ghost var len;
      ok, sym, len := ReadSymbol(r, t0.lookUp, t0.tree, filling, ll);
      BaseAgain();
      if !ok {
        filling := true;
        SymbolShort();
        EnterSymbols();
        return NeedInput;
      }
      filling := false;
      Chosen(pos, o.out, sym, len);
      if sym < 256 {
        Means(pos + len, o.out, sym);
        counter := sym;
        state := LiteralOut;
        EnterLiteralOut();
        Went(a, b, 15, 0, 14);
      } else {
        AfterSymbol(sym);
        TookInput(a, b, 15, 0);
      }
      GoStops();
      out := Go;
    }

    lemma BaseAgain()
      requires Shape() && r.Valid() && r.numBits <= 61 && o.Valid() && o.buf !in Arrays()
      ensures Base() && 0 <= r.Pos()
    {
    }

    lemma GoStops()
      ensures Stopped(Go)
    {
    }

    lemma OpenLiteralOut()
      requires Inv() && state.LiteralOut?
      ensures Base() && 0 <= r.Pos() && Tables() && counter < 256
      ensures Rest(TableBody(ll, d, r.Bits(), r.Pos(), o.out + [counter]))
    {
      hide Inflater.Base, Inflater.Tables, Inflater.Rest, Inflater.Shape, TableBody, Beyond, AtLenExtra, AtDist;
      hide AtDistExtra;
      hide AtCopy, Copy;
      Opened();
    }

    lemma OpenLengthBits()
      requires Inv() && state.LengthBits?
      ensures Base() && 0 <= r.Pos() && Tables() && numExtra <= 13
      ensures Rest(AtLenExtra(ll, d, r.Bits(), r.Pos(), o.out, counter, numExtra))
    {
      hide Inflater.Base, Inflater.Tables, Inflater.Rest, Inflater.Shape, TableBody, Beyond, AtLenExtra, AtDist;
      hide AtDistExtra;
      hide AtCopy, Copy;
      Opened();
    }

    lemma OpenDistSymbol()
      requires Inv() && state.DistSymbol?
      ensures Base() && 0 <= r.Pos() && Tables() && Rest(AtDist(ll, d, r.Bits(), r.Pos(), o.out, counter))
      ensures filling ==> r.numBits < 15 && Beyond(d, r.Bits(), r.Pos(), r.numBits)
    {
      hide Inflater.Base, Inflater.Tables, Inflater.Rest, Inflater.Shape, TableBody, Beyond, AtLenExtra, AtDist;
      hide AtDistExtra;
      hide AtCopy, Copy;
      Opened();
    }

    lemma OpenDistBits()
      requires Inv() && state.DistBits?
      ensures Base() && 0 <= r.Pos() && Tables() && numExtra <= 13 && dist + Pow2(numExtra) <= 32769
      ensures Rest(AtDistExtra(ll, d, r.Bits(), r.Pos(), o.out, counter, dist, numExtra))
    {
      hide Inflater.Base, Inflater.Tables, Inflater.Rest, Inflater.Shape, TableBody, Beyond, AtLenExtra, AtDist;
      hide AtDistExtra;
      hide AtCopy, Copy;
      Opened();
    }

    lemma OpenCopyStart()
      requires Inv() && state.CopyStart?
      ensures Base() && 0 <= r.Pos() && Tables() && dist <= 32768
      ensures Rest(AtCopy(ll, d, r.Bits(), r.Pos(), o.out, counter, dist))
    {
      hide Inflater.Base, Inflater.Tables, Inflater.Rest, Inflater.Shape, TableBody, Beyond, AtLenExtra, AtDist;
      hide AtDistExtra;
      hide AtCopy, Copy;
      Opened();
    }

    lemma OpenCopying()
      requires Inv() && state.Copying?
      ensures Base() && 0 <= r.Pos() && Tables() && dist <= 32768 && 0 < o.modulus
      ensures distFromStart % o.modulus == |o.out| % o.modulus
      ensures (!o.wrapping ==> 1 <= dist <= distFromStart == |o.out|)
      ensures CopyGoes(r.Pos(), o.out, counter + 1)
    {
      hide Inflater.Base, Inflater.Tables, Inflater.Rest, Inflater.Shape, TableBody, Beyond, AtLenExtra, AtDist;
      hide AtDistExtra;
      hide AtCopy, Copy;
      Opened();
    }

    lemma EnterDistSymbol()
      requires Base() && state.DistSymbol? && Tables()
      requires 0 <= r.Pos() && Rest(AtDist(ll, d, r.Bits(), r.Pos(), o.out, counter))
      requires filling ==> r.numBits < 15 && Beyond(d, r.Bits(), r.Pos(), r.numBits)
      ensures Inv()
    {
      hide Inflater.Base, Inflater.Inv, Inflater.Tables, Inflater.Rest, Inflater.Shape, TableBody, Beyond, AtLenExtra;
      hide AtDist, AtDistExtra, AtCopy, Copy;
      BasePos();
      EnterBody();
    }

    lemma EnterDistBits()
      requires Base() && state.DistBits? && Tables()
      requires 0 <= r.Pos() && numExtra <= 13 && dist + Pow2(numExtra) <= 32769
      requires Rest(AtDistExtra(ll, d, r.Bits(), r.Pos(), o.out, counter, dist, numExtra))
      ensures Inv()
    {
      hide Inflater.Base, Inflater.Inv, Inflater.Tables, Inflater.Rest, Inflater.Shape, TableBody, Beyond, AtLenExtra;
      hide AtDist, AtDistExtra, AtCopy, Copy;
      BasePos();
      EnterBody();
    }

    lemma EnterCopyStart()
      requires Base() && state.CopyStart? && Tables()
      requires 0 <= r.Pos() && dist <= 32768 && Rest(AtCopy(ll, d, r.Bits(), r.Pos(), o.out, counter, dist))
      ensures Inv()
    {
      hide Inflater.Base, Inflater.Inv, Inflater.Tables, Inflater.Rest, Inflater.Shape, TableBody, Beyond, AtLenExtra;
      hide AtDist, AtDistExtra, AtCopy, Copy;
      BasePos();
      EnterBody();
    }

    lemma EnterCopying()
      requires Base() && state.Copying? && Tables()
      requires 0 <= r.Pos() && dist <= 32768 && 0 < o.modulus
      requires distFromStart % o.modulus == |o.out| % o.modulus
      requires (!o.wrapping ==> 1 <= dist <= distFromStart == |o.out|)
      requires CopyGoes(r.Pos(), o.out, counter + 1)
      ensures Inv()
    {
      hide Inflater.Base, Inflater.Inv, Inflater.Tables, Inflater.Rest, Inflater.Shape, TableBody, Beyond, AtLenExtra;
      hide AtDist, AtDistExtra, AtCopy, Copy;
      BasePos();
      EnterBody();
    }

    /** Two symbols at once, when there is enough input and room. */
    method FastSymbols() returns (out: Outcome)
      requires Inv() && state.Symbols? && |r.src| - r.inPos >= 4 && o.outEnd - o.outPos >= 2 && !filling
      modifies `state, `counter, `numExtra, `filling, r`inPos, r`numBits, r`bitBuf, o`outPos, o`out, o.buf
      ensures Inv() && out.Go?
      ensures Less(old(r.Avail()), old(o.outEnd - o.outPos), 15, 0)
    {
      hide *;
      OpenSymbols();
      BasePos();
      TableFacts();
      ghost var pos, a, b, o0 := r.Pos(), r.Avail(), o.outEnd - o.outPos, o.out;
      if r.numBits < 30 {
        Refill();
      }
      out := Go;
      var sym, len := DecodeHere(r, t0.lookUp, t0.tree, ll);
      Chosen(pos, o0, sym, len);
      BaseAgain();
      if sym >= 256 {
        AfterSymbol(sym);
        TookInput(a, b, 15, 0);
        return;
      }
      Means(pos + len, o0, sym);
      SecondSymbol(sym);
      MadeOutput(a, b, 15, 0);
    }

    /** The symbol after a literal; the bit buffer still holds enough. */
    method SecondSymbol(sym: byte)
      requires Base() && 0 <= r.Pos() && state.Symbols? && Tables() && !filling && r.numBits >= 15
      requires o.outEnd - o.outPos >= 2
      requires Rest(TableBody(ll, d, r.Bits(), r.Pos(), o.out + [sym]))
      modifies `state, `counter, `numExtra, `filling, r`numBits, r`bitBuf, o`outPos, o`out, o.buf
      ensures Inv() && r.Avail() <= old(r.Avail()) && o.outEnd - o.outPos < old(o.outEnd - o.outPos)
    {
      hide *;
      BasePos();
      TableFacts();
      ghost var pos, o0 := r.Pos(), o.out;
      var sym2, len2 := DecodeHere(r, t0.lookUp, t0.tree, ll);
      Chosen(pos, o0 + [sym], sym2, len2);
      BufferApart();
      o.Put(sym);
      BaseAgain();
      if sym2 >= 256 {
        AfterSymbol(sym2);
      } else {
        Means(pos + len2, o0 + [sym], sym2);
        o.Put(sym2);
        BaseAgain();
        EnterSymbols();
      }
    }

    /** Four bytes of input at once. */
    method Refill()
      requires r.Valid() && r.numBits < 30 && |r.src| - r.inPos >= 4
      modifies r`inPos, r`numBits, r`bitBuf
      ensures r.Valid() && r.Pos() == old(r.Pos()) && r.Avail() == old(r.Avail()) && 30 <= r.numBits <= 61
    {
      hide BitReader.Valid;
      var ok := r.Pull();
      ok := r.Pull();
      ok := r.Pull();
      ok := r.Pull();
    }

    /** The tables are not in the output buffer. */
    lemma BufferApart()
      requires Base()
      ensures o.buf as object != t0.lookUp && o.buf as object != t0.tree && o.buf as object != t1.lookUp
      ensures o.buf as object != t1.tree
      ensures o.buf as object != t2.lookUp && o.buf as object != t2.tree && o.buf as object != t2.sizes
      ensures o.buf as object != lenCodes && o.buf as object != raw
    {
    }

    /** Puts out a literal. */
    method PutLiteral() returns (out: Outcome)
      requires Inv() && state.LiteralOut?
      modifies `state, `filling, o`outPos, o`out, o.buf
      ensures Inv() && Stopped(out) && (out.Go? || out.NeedOutput?)
      ensures out.Go? ==> Less(old(r.Avail()), old(o.outEnd - o.outPos), 14, 0)
    {
      hide *;
      OpenLiteralOut();
      BasePos();
      ghost var a, b := r.Avail(), o.outEnd - o.outPos;
      if o.outPos >= o.outEnd {
        LiteralShort();
        return NeedOutput;
      }
      BufferApart();
      o.Put(counter);
      BaseAgain();
      state, filling := Symbols, false;
      EnterSymbols();
      MadeOutput(a, b, 14, 0);
      GoStops();
      out := Go;
    }

    lemma LiteralShort()
      requires state.LiteralOut? && 0 <= r.Pos() && o.outPos == o.outEnd && counter < 256
      requires Rest(TableBody(ll, d, r.Bits(), r.Pos(), o.out + [counter]))
      ensures Stopped(NeedOutput)
    {
      hide Toward, TableBody, Inflater.Stopped;
      BodyWaits(goal, Fin(), ll, d, r.Bits(), r.Pos(), o.out + [counter]);
      assert o.out <= o.out + [counter];
      OutputShort();
    }

    lemma NoBits(pos: nat)
      requires pos <= |r.Bits()|
      ensures Field(r.Bits(), pos, 0) == Some(0)
    {
      assert r.Bits()[pos..pos] == [];
    }

    lemma PosInside()
      requires r.Valid() && 0 <= r.Pos()
      ensures r.Pos() <= |r.Bits()|
    {
      hide Holds;
    }

    /** Extra bits of a length or a distance; none are read when there are none. */
    method ExtraBits(n: nat) returns (ok: bool, b: nat)
      requires Base() && n <= 13
      modifies r`inPos, r`numBits, r`bitBuf
      ensures Base() && 0 <= old(r.Pos()) && 0 <= r.Pos()
      ensures ok ==> (r.Pos() == old(r.Pos()) + n && r.Avail() == old(r.Avail()) - n
          && Field(r.Bits(), old(r.Pos()), n) == Some(b) && b < Pow2(n))
      ensures !ok ==> r.Pos() == old(r.Pos()) && r.inPos == |r.src| && r.numBits < n
    {
      hide *;
      BasePos();
      if n > 0 {
        ok, b := r.Get(n);
      } else {
        PosInside();
        NoBits(r.Pos());
        ok, b := true, 0;
        OneBelow();
      }
      BaseAgain();
    }

    lemma OneBelow()
      ensures 0 < Pow2(0)
    {
    }

    /** Reads the extra bits of a length. */
    method ReadLength() returns (out: Outcome)
      requires Inv() && state.LengthBits?
      modifies `state, `counter, `filling, r`inPos, r`numBits, r`bitBuf
      ensures Inv() && Stopped(out) && (out.Go? || out.NeedInput?)
      ensures out.Go? ==> Less(old(r.Avail()), old(o.outEnd - o.outPos), 20, 0)
    {
      hide *;
      OpenLengthBits();
      NoTokens();
      ghost var pos, a, b := r.Pos(), r.Avail(), o.outEnd - o.outPos;
      var ok, v := ExtraBits(numExtra);
      if !ok {
        LengthShort();
        EnterLengthBits();
        return NeedInput;
      }
      LengthIs(pos, v);
      counter := counter + v;
      state, filling := DistSymbol, false;
      EnterDistSymbol();
      Went(a, b, 20, 0, 19);
      GoStops();
      out := Go;
    }

    lemma LengthShort()
      requires Base() && 0 <= r.Pos() && r.inPos == |r.src| && r.numBits < numExtra
      requires Rest(AtLenExtra(ll, d, r.Bits(), r.Pos(), o.out, counter, numExtra))
      ensures Stopped(NeedInput)
    {
      hide Toward, AtLenExtra, BitReader.Valid, OutputWindow.Valid, Inflater.Stopped, Inflater.Shape;
      LengthWaits(goal, Fin(), ll, d, r.Bits(), r.Pos(), o.out, counter, numExtra);
      InputShort(numExtra);
    }

    lemma LengthIs(pos: nat, v: nat)
      requires Rest(AtLenExtra(ll, d, r.Bits(), pos, o.out, counter, numExtra))
      requires Field(r.Bits(), pos, numExtra) == Some(v)
      ensures Rest(AtDist(ll, d, r.Bits(), pos + numExtra, o.out, counter + v))
    {
      hide Toward, AtLenExtra, AtDist, Field;
      LengthKnown(goal, Fin(), ll, d, r.Bits(), pos, o.out, counter, numExtra, v);
    }

    /** Reads a distance symbol. */
    method ReadDistSymbol() returns (out: Outcome)
      requires Inv() && state.DistSymbol?
      modifies `state, `dist, `numExtra, `filling, r`inPos, r`numBits, r`bitBuf
      ensures Inv() && Stopped(out) && (out.Go? || out.NeedInput?)
      ensures out.Go? ==> Less(old(r.Avail()), old(o.outEnd - o.outPos), 19, 0)
    {
      hide *;
      OpenDistSymbol();
      BasePos();
      TableFacts();
      NoTokens();
      ghost var pos, a, b := r.Pos(), r.Avail(), o.outEnd - o.outPos;
      var ok, t;
      ghost var len;
      ok, t, len := ReadSymbol(r, t1.lookUp, t1.tree, filling, d);
      BaseAgain();
      if !ok {
        filling := true;
        DistShort();
        EnterDistSymbol();
        return NeedInput;
      }
      DistIs(pos, t, len);
      DistBounds(t);
      numExtra := DistExtraAt(t);
      dist := DistBaseAt(t);
      state, filling := DistBits, false;
      EnterDistBits();
      Went(a, b, 19, 0, 18);
      GoStops();
      out := Go;
    }

    lemma DistShort()
      requires Base() && 0 <= r.Pos() && r.inPos == |r.src| && Rest(AtDist(ll, d, r.Bits(), r.Pos(), o.out, counter))
      requires Beyond(d, r.Bits(), r.Pos(), r.numBits) && |d| <= 32
      ensures Stopped(NeedInput)
    {
      hide Toward, AtDist, Beyond, BitReader.Valid, OutputWindow.Valid, Inflater.Stopped, Inflater.Shape;
      DistWaits(goal, Fin(), ll, d, r.Bits(), r.Pos(), o.out, counter, r.numBits);
      InputShort(r.numBits + 1);
    }

    lemma DistIs(pos: nat, t: nat, len: nat)
      requires Rest(AtDist(ll, d, r.Bits(), pos, o.out, counter)) && Right(d, r.Bits(), pos, t, len) && t < 32
      ensures Rest(AtDistExtra(ll, d, r.Bits(), pos + len, o.out, counter, DistBaseAt(t), DistExtraAt(t)))
    {
      hide Toward, AtDist, AtDistExtra, Right;
      DistRead(goal, Fin(), ll, d, r.Bits(), pos, o.out, counter, t, len);
    }

    /** Reads the extra bits of a distance. */
    method ReadDist() returns (out: Outcome)
      requires Inv() && state.DistBits?
      modifies `state, `dist, r`inPos, r`numBits, r`bitBuf
      ensures Inv() && Stopped(out) && (out.Go? || out.NeedInput?)
      ensures out.Go? ==> Less(old(r.Avail()), old(o.outEnd - o.outPos), 18, 0)
    {
      hide *;
      OpenDistBits();
      NoTokens();
      ghost var pos, a, b := r.Pos(), r.Avail(), o.outEnd - o.outPos;
      var ok, v := ExtraBits(numExtra);
      if !ok {
        DistExtraShort();
        EnterDistBits();
        return NeedInput;
      }
      DistWhole(pos, v);
      dist := dist + v;
      state := CopyStart;
      EnterCopyStart();
      Went(a, b, 18, 0, 17);
      GoStops();
      out := Go;
    }

    lemma DistExtraShort()
      requires Base() && 0 <= r.Pos() && r.inPos == |r.src| && r.numBits < numExtra
      requires Rest(AtDistExtra(ll, d, r.Bits(), r.Pos(), o.out, counter, dist, numExtra))
      ensures Stopped(NeedInput)
    {
      hide Toward, AtDistExtra, BitReader.Valid, OutputWindow.Valid, Inflater.Stopped, Inflater.Shape;
      DistExtraWaits(goal, Fin(), ll, d, r.Bits(), r.Pos(), o.out, counter, dist, numExtra);
      InputShort(numExtra);
    }

    lemma DistWhole(pos: nat, v: nat)
      requires Rest(AtDistExtra(ll, d, r.Bits(), pos, o.out, counter, dist, numExtra))
      requires Field(r.Bits(), pos, numExtra) == Some(v)
      ensures Rest(AtCopy(ll, d, r.Bits(), pos + numExtra, o.out, counter, dist + v))
    {
      hide Toward, AtDistExtra, AtCopy, Field;
      DistKnown(goal, Fin(), ll, d, r.Bits(), pos, o.out, counter, dist, numExtra, v);
    }

    // ----- copying matches -----

    lemma CopyIs()
      requires Shape() && 0 <= r.Pos() && Rest(AtCopy(ll, d, r.Bits(), r.Pos(), o.out, counter, dist))
      ensures (o.wrapping || 1 <= dist <= |o.out|) ==> CopyGoes(r.Pos(), o.out, counter)
      ensures !(1 <= dist <= |o.out|) ==> Fails(goal)
    {
      hide Toward, AtCopy, TableBody, Copy, StreamReading;
      CopyKnown(goal, Fin(), ll, d, r.Bits(), r.Pos(), o.out, counter, dist);
    }

    /** Starts to copy a match: refuses a distance that reaches back too far, copies at once if the bytes lie in one
        stretch. */
    method StartCopy() returns (out: Outcome)
      requires Inv() && state.CopyStart?
      modifies `state, `counter, `distFromStart, `filling, o`outPos, o`out, o.buf
      ensures Inv() && Stopped(out) && (out.Go? || out.Bad?)
      ensures out.Go? ==> Less(old(r.Avail()), old(o.outEnd - o.outPos), 17, 0)
    {
      hide *;
      OpenCopyStart();
      BasePos();
      CopyIs();
      NoTokens();
      ghost var a, b := r.Avail(), o.outEnd - o.outPos;
      distFromStart := o.outPos;
      StartIs();
      if !o.wrapping && (dist == 0 || dist > distFromStart || distFromStart == 0) {
        state := Failed;
        EnterFailed();
        BadStops();
        return Bad;
      }
      out := Go;
      var src := o.Back(distFromStart, dist);
      if (if o.outPos > src then o.outPos else src) + counter > o.outEnd {
        if counter > 0 {
          counter := counter - 1;
          state := Copying;
          EnterCopying();
          Went(a, b, 17, 0, 16);
        } else {
          NothingCopied();
          state, filling := Symbols, false;
          EnterSymbols();
          Went(a, b, 17, 0, 15);
        }
      } else {
        CopyAll(src);
        Went(a, b, 17, 0, 15);
      }
      GoStops();
    }

    /** Copies a match that lies in one stretch. */
    method CopyAll(src: nat)
      requires Base() && Tables() && dist <= 32768 && 0 < o.modulus && 0 <= r.Pos()
      requires distFromStart % o.modulus == |o.out| % o.modulus && src == o.Back(distFromStart, dist)
      requires src + counter <= o.outEnd && o.outPos + counter <= o.outEnd
      requires CopyGoes(r.Pos(), o.out, counter)
      modifies `state, `filling, o`outPos, o`out, o.buf
      ensures Inv() && state.Symbols? && o.outEnd - o.outPos <= old(o.outEnd - o.outPos)
    {
      hide *;
      BasePos();
      DistFits();
      ghost var o0 := o.out;
      SourceIs(src);
      BufferApart();
      o.CopyRun(src, counter, dist);
      BaseAgain();
      CopyRest(o0, counter);
      state, filling := Symbols, false;
      EnterSymbols();
    }

    lemma DistFits()
      requires Base() && dist <= 32768
      ensures dist <= o.modulus
    {
      hide History;
    }

    /** Where the output stands in the buffer. */
    lemma StartIs()
      requires o.Valid() && distFromStart == o.outPos
      ensures distFromStart % o.modulus == |o.out| % o.modulus && (!o.wrapping ==> distFromStart == |o.out|)
    {
    }

    lemma SourceIs(src: nat)
      requires o.Valid() && distFromStart % o.modulus == |o.out| % o.modulus && src == o.Back(distFromStart, dist)
      ensures src < o.modulus && src % o.modulus == (|o.out| - dist) % o.modulus
    {
      DivMod(distFromStart - dist, o.modulus);
      SmallMod(src, o.modulus);
      CongruentBack(distFromStart, |o.out|, dist, o.modulus);
    }

    lemma EnterFailed()
      requires Base() && state.Failed? && Fails(goal)
      ensures Inv()
    {
      hide Inflater.Base, Inflater.Inv, Inflater.Shape;
      BasePos();
      EnterEdge();
    }

    lemma BadStops()
      requires state.Failed?
      ensures Stopped(Bad)
    {
    }

    lemma NothingCopied()
      requires 0 <= r.Pos() && counter == 0
      requires CopyGoes(r.Pos(), o.out, counter)
      ensures Rest(TableBody(ll, d, r.Bits(), r.Pos(), o.out))
    {
      hide TableBody;
    }

    lemma CopyRest(o0: seq<byte>, n: nat)
      requires 0 <= r.Pos() && dist <= o.modulus
      requires 1 <= dist <= |o0| && dist <= o.modulus ==> o.out == Copy(o0, n, dist)
      requires CopyGoes(r.Pos(), o0, n)
      ensures Rest(TableBody(ll, d, r.Bits(), r.Pos(), o.out))
    {
      hide TableBody, Copy;
    }

    /** One byte of a match; the ring is read where it wraps around. */
    method CopyOne() returns (out: Outcome)
      requires Inv() && state.Copying?
      modifies `state, `counter, `distFromStart, `filling, o`outPos, o`out, o.buf
      ensures Inv() && Stopped(out) && (out.Go? || out.NeedOutput?)
      ensures out.Go? ==> Less(old(r.Avail()), old(o.outEnd - o.outPos), 16, 0)
    {
      hide *;
      OpenCopying();
      BasePos();
      DistFits();
      ghost var a, b, o0, n := r.Avail(), o.outEnd - o.outPos, o.out, counter;
      if o.outPos >= o.outEnd {
        CopyShort();
        EnterCopying();
        return NeedOutput;
      }
      BufferApart();
      o.CopyByte(distFromStart, dist);
      BaseAgain();
      CopiedOne(o0, n);
      NextMod(distFromStart, |o0|, o.modulus);
      distFromStart := distFromStart + 1;
      AfterByte();
      MadeOutput(a, b, 16, 0);
      GoStops();
      out := Go;
    }

    /** A byte of a match has been put out: counter more follow. */
    method AfterByte()
      requires Base() && 0 <= r.Pos() && state.Copying? && Tables() && dist <= 32768 && 0 < o.modulus
      requires distFromStart % o.modulus == |o.out| % o.modulus
      requires (!o.wrapping ==> 1 <= dist <= distFromStart == |o.out|)
      requires CopyGoes(r.Pos(), o.out, counter)
      modifies `state, `counter, `filling
      ensures Inv()
    {
      hide *;
      if counter == 0 {
        NothingCopied();
        state, filling := Symbols, false;
        EnterSymbols();
      } else {
        counter := counter - 1;
        EnterCopying();
      }
    }

    lemma CopyShort()
      requires state.Copying? && 0 <= r.Pos() && o.outPos == o.outEnd
      requires CopyGoes(r.Pos(), o.out, counter + 1)
      ensures Stopped(NeedOutput)
    {
      hide Toward, TableBody, Inflater.Stopped, Copy;
      if goal.Some? {
        BodyWaits(goal, Fin(), ll, d, r.Bits(), r.Pos(), Copy(o.out, counter + 1, dist));
        CopyExtends(o.out, counter + 1, dist);
      }
      OutputShort();
    }

    lemma CopiedOne(o0: seq<byte>, n: nat)
      requires 0 <= r.Pos() && dist <= o.modulus && |o.out| == |o0| + 1
      requires 1 <= dist <= |o0| && dist <= o.modulus ==> o.out == o0 + [o0[|o0| - dist]]
      requires CopyGoes(r.Pos(), o0, n + 1)
      ensures CopyGoes(r.Pos(), o.out, n)
    {
      hide TableBody, Inflater.Rest, Copy;
      if goal.Some? {
        CopyStep(o0, n, dist);
      }
    }

    // ----- stored blocks -----

    lemma MoreRanks()
      ensures Rank(StoredHead) == 13 && Rank(StoredOut) == 12 && Rank(StoredBits) == 11 && Rank(StoredCopy) == 10
      ensures Rank(BlockStart) == 9 && Rank(StreamEnd) == 3 && Rank(Trailer) == 2 && Rank(Finished) == 1
      ensures Rank(Failed) == 0
      ensures Rank(Start) == 30 && Rank(ZHead0) == 29 && Rank(ZHead1) == 28
      ensures Rank(Counts) == 27 && Rank(ClSizes) == 26 && Rank(CodeRun) == 25 && Rank(CodeLengths) == 24
      ensures Rank(Symbols) == 15
    {
    }

    lemma OpenStoredHead() returns (start: nat)
      requires Inv() && state.StoredHead?
      ensures Base() && raw.Length == 4 && counter < 4 && r.Pos() == start + 8 * counter && r.Pos() % 8 == 0
      ensures Rest(TableStored(r.Bits(), start, o.out)) && forall j :: 0 <= j < counter ==> RawRead(start, j)
    {
      hide Inflater.Base, Inflater.Rest, Inflater.Shape, TableBytes, TableStored, Inflater.RawRead;
      Opened();
      BasePos();
      start := r.Pos() - 8 * counter;
    }

    lemma EnterStoredHead(start: nat)
      requires Base() && state.StoredHead? && raw.Length == 4 && counter < 4 && r.Pos() == start + 8 * counter
      requires r.Pos() % 8 == 0
      requires Rest(TableStored(r.Bits(), start, o.out)) && forall j :: 0 <= j < counter ==> RawRead(start, j)
      ensures Inv()
    {
      hide Inflater.Base, Inflater.Inv, Inflater.Rest, Inflater.Shape, TableBytes, TableStored, Inflater.RawRead;
      BasePos();
      EnterStored();
    }

    lemma OpenStoredBits()
      requires Inv() && state.StoredBits?
      ensures Base() && 0 <= r.Pos() && r.Pos() % 8 == 0 && Rest(TableBytes(r.Bits(), r.Pos(), o.out, counter))
    {
      hide Inflater.Base, Inflater.Rest, Inflater.Shape, TableBytes, TableStored, Inflater.RawRead;
      Opened();
    }

    lemma EnterStoredBits()
      requires Base() && state.StoredBits? && 0 <= r.Pos() && r.Pos() % 8 == 0
      requires Rest(TableBytes(r.Bits(), r.Pos(), o.out, counter))
      ensures Inv()
    {
      hide Inflater.Base, Inflater.Inv, Inflater.Rest, Inflater.Shape, TableBytes, TableStored, Inflater.RawRead;
      BasePos();
      EnterStored();
    }

    lemma OpenStoredOut()
      requires Inv() && state.StoredOut?
      ensures Base() && 0 <= r.Pos() && r.Pos() % 8 == 0 && counter > 0 && dist < 256
      ensures Rest(TableBytes(r.Bits(), r.Pos(), o.out + [dist], counter - 1))
    {
      hide Inflater.Base, Inflater.Rest, Inflater.Shape, TableBytes, TableStored, Inflater.RawRead;
      Opened();
    }

    lemma EnterStoredOut()
      requires Base() && state.StoredOut? && 0 <= r.Pos() && r.Pos() % 8 == 0 && counter > 0 && dist < 256
      requires Rest(TableBytes(r.Bits(), r.Pos(), o.out + [dist], counter - 1))
      ensures Inv()
    {
      hide Inflater.Base, Inflater.Inv, Inflater.Rest, Inflater.Shape, TableBytes, TableStored, Inflater.RawRead;
      BasePos();
      EnterStored();
    }

    lemma OpenStoredCopy()
      requires Inv() && state.StoredCopy?
      ensures Base() && 0 <= r.Pos() && r.numBits == 0 && Rest(TableBytes(r.Bits(), r.Pos(), o.out, counter))
    {
      hide Inflater.Base, Inflater.Rest, Inflater.Shape, TableBytes, TableStored, Inflater.RawRead;
      Opened();
    }

    lemma EnterStoredCopy()
      requires Base() && state.StoredCopy? && 0 <= r.Pos() && r.numBits == 0
      requires Rest(TableBytes(r.Bits(), r.Pos(), o.out, counter))
      ensures Inv()
    {
      hide Inflater.Base, Inflater.Inv, Inflater.Rest, Inflater.Shape, TableBytes, TableStored, Inflater.RawRead;
      BasePos();
      EnterStored();
    }

    /** At a byte boundary of the stream the bit buffer holds whole bytes. */
    lemma WholeBytes()
      requires r.Valid() && 0 <= r.Pos() && r.Pos() % 8 == 0
      ensures r.numBits % 8 == 0
    {
      hide Holds;
    }

    lemma ByteBelow()
      ensures Pow2(8) == 256
    {
      Pow2Values();
    }

    /** A byte from the bit buffer, or past it when it is empty. */
    method AlignedByte() returns (ok: bool, b: nat)
      requires Base() && 0 <= r.Pos() && r.Pos() % 8 == 0
      modifies r`inPos, r`numBits, r`bitBuf
      ensures Base() && (old(r.numBits) == 0 ==> r.numBits == 0)
      ensures ok ==> (r.Pos() == old(r.Pos()) + 8 && r.Avail() == old(r.Avail()) - 8 && b < 256
          && Field(r.Bits(), old(r.Pos()), 8) == Some(b))
      ensures !ok ==> r.Pos() == old(r.Pos()) && r.inPos == |r.src| && r.numBits < 8
    {
      hide *;
      BasePos();
      ByteBelow();
      if r.numBits > 0 {
        ok, b := r.Get(8);
      } else {
        var c;
        ok, c := r.GetByte();
        b := c;
      }
      BaseAgain();
    }

    /** Keeps a byte of a stored block's header. */
    method StoreRaw(v: nat, ghost start: nat)
      requires Base() && raw.Length == 4 && counter < 4 && v < 256 && Field(r.Bits(), start + 8 * counter, 8) == Some(v)
      requires forall j :: 0 <= j < counter ==> RawRead(start, j)
      modifies raw
      ensures Base() && forall j :: 0 <= j < counter + 1 ==> RawRead(start, j)
    {
      hide *;
      BufferApart();
      BasePos();
      ghost var before := raw[..];
      RawBefore(start);
      raw[counter] := v;
      assert raw[..] == before[counter := v];
      BaseAgain();
      RawNow(start, v, before);
    }

    /** Reads a byte of a stored block's header. */
    method ReadStoredHead() returns (out: Outcome)
      requires Inv() && state.StoredHead?
      modifies `state, `counter, raw, r`inPos, r`numBits, r`bitBuf
      ensures Inv() && Stopped(out) && (out.Go? || out.NeedInput? || out.Bad?)
      ensures out.Go? ==> Less(old(r.Avail()), old(o.outEnd - o.outPos), 13, 0)
    {
      hide *;
      ghost var start := OpenStoredHead();
      BasePos();
      ghost var a, b := r.Avail(), o.outEnd - o.outPos;
      var ok, v := AlignedByte();
      if !ok {
        StoredShort(start);
        EnterStoredHead(start);
        return NeedInput;
      }
      StoreRaw(v, start);
      counter := counter + 1;
      if counter < 4 {
        EnterStoredHead(start);
        GoStops();
        out := Go;
      } else {
        out := CheckLength(start);
      }
      if out.Go? {
        TookInput(a, b, 13, 0);
      }
    }

    /** The length of a stored block must be followed by its complement. */
    method CheckLength(ghost start: nat) returns (out: Outcome)
      requires Base() && r.Pos() == start + 32 && r.Pos() % 8 == 0 && raw.Length == 4
      requires Rest(TableStored(r.Bits(), start, o.out)) && forall j :: 0 <= j < 4 ==> RawRead(start, j)
      modifies `state, `counter
      ensures Inv() && Stopped(out) && (out.Go? || out.Bad?)
    {
      hide *;
      HeadRead(start);
      var len := raw[0] + 256 * raw[1];
      if len + (raw[2] + 256 * raw[3]) != 65535 {
        state := Failed;
        EnterFailed();
        BadStops();
        out := Bad;
      } else {
        counter := len;
        state := StoredBits;
        EnterStoredBits();
        GoStops();
        out := Go;
      }
    }

    lemma StoredShort(start: nat)
      requires Base() && r.inPos == |r.src| && r.numBits < 8 && counter < 4 && r.Pos() == start + 8 * counter
      requires Rest(TableStored(r.Bits(), start, o.out))
      ensures Stopped(NeedInput)
    {
      hide Toward, TableStored, BitReader.Valid, OutputWindow.Valid, Inflater.Stopped, Inflater.Shape;
      StoredWaits(goal, Fin(), r.Bits(), start, o.out);
      InputShort(8);
    }

    lemma RawBefore(start: nat)
      requires counter < 4 == raw.Length && forall j :: 0 <= j < counter ==> RawRead(start, j)
      ensures forall j :: 0 <= j < counter ==> RawByte(start, j, raw[..])
    {
      hide Field;
      forall j | 0 <= j < counter ensures RawByte(start, j, raw[..]) {
        assert RawRead(start, j);
      }
    }

    ghost predicate RawByte(start: nat, j: nat, b: seq<nat>)
      requires j < |b|
    {
      b[j] < 256 && Field(r.Bits(), start + 8 * j, 8) == Some(b[j])
    }

    lemma RawNow(start: nat, v: nat, before: seq<nat>)
      requires counter < 4 == raw.Length == |before| && v < 256 && Field(r.Bits(), start + 8 * counter, 8) == Some(v)
      requires (forall j :: 0 <= j < counter ==> RawByte(start, j, before)) && raw[..] == before[counter := v]
      ensures forall j :: 0 <= j < counter + 1 ==> RawRead(start, j)
    {
      hide Field;
      forall j | 0 <= j < counter + 1 ensures RawRead(start, j) {
        assert raw[j] == raw[..][j];
        assert j < counter ==> RawByte(start, j, before);
      }
    }

    lemma HeadRead(start: nat)
      requires raw.Length == 4 && Rest(TableStored(r.Bits(), start, o.out))
      requires forall j :: 0 <= j < 4 ==> RawRead(start, j)
      ensures raw[0] + 256 * raw[1] + (raw[2] + 256 * raw[3]) != 65535 ==> Fails(goal)
      ensures raw[0] + 256 * raw[1] + (raw[2] + 256 * raw[3]) == 65535
          ==> Rest(TableBytes(r.Bits(), start + 32, o.out, raw[0] + 256 * raw[1]))
    {
      hide Toward, TableStored, TableBytes, Field;
      assert RawRead(start, 0) && RawRead(start, 1) && RawRead(start, 2) && RawRead(start, 3);
      StoredHeaderRead(goal, Fin(), r.Bits(), start, o.out, raw[0], raw[1], raw[2], raw[3]);
    }

    lemma StoredEnds()
      requires 0 <= r.Pos() && counter == 0 && Rest(TableBytes(r.Bits(), r.Pos(), o.out, counter))
      ensures Rest(Complete(o.out, r.Pos(), true))
    {
      hide Toward;
    }

    lemma StoredOne(pos: nat, v: nat)
      requires counter > 0 && Rest(TableBytes(r.Bits(), pos, o.out, counter)) && Field(r.Bits(), pos, 8) == Some(v)
      ensures v < 256 && Rest(TableBytes(r.Bits(), pos + 8, o.out + [v], counter - 1))
    {
      hide Toward, TableBytes, Field;
      StoredByteRead(goal, Fin(), r.Bits(), pos, o.out, counter, v);
    }

    lemma StoredByteShort()
      requires Base() && 0 <= r.Pos() && r.inPos == |r.src| && r.numBits < 8 && counter > 0
      requires Rest(TableBytes(r.Bits(), r.Pos(), o.out, counter))
      ensures Stopped(NeedInput)
    {
      hide Toward, TableBytes, BitReader.Valid, OutputWindow.Valid, Inflater.Stopped, Inflater.Shape;
      StoredBytesWait(goal, Fin(), r.Bits(), r.Pos(), o.out, counter);
      InputShort(8);
    }

    /** Takes a stored byte that is still in the bit buffer. */
    method ReadStoredBits() returns (out: Outcome)
      requires Inv() && state.StoredBits?
      modifies `state, `dist, r`inPos, r`numBits, r`bitBuf
      ensures Inv() && Stopped(out) && (out.Go? || out.NeedInput?)
      ensures out.Go? ==> Less(old(r.Avail()), old(o.outEnd - o.outPos), 11, 0)
    {
      hide *;
      OpenStoredBits();
      MoreRanks();
      ghost var pos, a, b := r.Pos(), r.Avail(), o.outEnd - o.outPos;
      if counter > 0 && r.numBits > 0 {
        var ok, v := AlignedByte();
        if !ok {
          StoredByteShort();
          EnterStoredBits();
          return NeedInput;
        }
        StoredOne(pos, v);
        dist := v;
        state := StoredOut;
        EnterStoredOut();
        TookInput(a, b, 11, 0);
      } else if counter == 0 {
        StoredEnds();
        EndBlock();
        EndRanks();
        Went(a, b, 11, 0, Rank(state));
      } else {
        state := StoredCopy;
        EnterStoredCopy();
        Went(a, b, 11, 0, 10);
      }
      GoStops();
      out := Go;
    }

    lemma EndRanks()
      requires state.BlockStart? || state.StreamEnd?
      ensures Rank(state) <= 9
    {
    }

    /** Puts out a stored byte. */
    method PutStored() returns (out: Outcome)
      requires Inv() && state.StoredOut?
      modifies `state, `counter, o`outPos, o`out, o.buf
      ensures Inv() && Stopped(out) && (out.Go? || out.NeedOutput?)
      ensures out.Go? ==> Less(old(r.Avail()), old(o.outEnd - o.outPos), 12, 0)
    {
      hide *;
      OpenStoredOut();
      BasePos();
      ghost var a, b := r.Avail(), o.outEnd - o.outPos;
      if o.outPos >= o.outEnd {
        StoredOutShort();
        return NeedOutput;
      }
      BufferApart();
      o.Put(dist);
      BaseAgain();
      counter := counter - 1;
      state := StoredBits;
      EnterStoredBits();
      MadeOutput(a, b, 12, 0);
      GoStops();
      out := Go;
    }

    lemma StoredOutShort()
      requires state.StoredOut? && 0 <= r.Pos() && o.outPos == o.outEnd && counter > 0 && dist < 256
      requires Rest(TableBytes(r.Bits(), r.Pos(), o.out + [dist], counter - 1))
      ensures Stopped(NeedOutput)
    {
      hide Toward, TableBytes, Inflater.Stopped;
      StoredBytesWait(goal, Fin(), r.Bits(), r.Pos(), o.out + [dist], counter - 1);
      assert o.out <= o.out + [dist];
      OutputShort();
    }

    /** Copies as many stored bytes as there are input and room for. */
    method CopyStored() returns (out: Outcome)
      requires Inv() && state.StoredCopy?
      modifies `state, `counter, r`inPos, o`outPos, o`out, o.buf
      ensures Inv() && Stopped(out) && (out.Go? || out.NeedOutput? || out.NeedInput?)
      ensures out.Go? ==> Less(old(r.Avail()), old(o.outEnd - o.outPos), 10, 0)
    {
      hide *;
      OpenStoredCopy();
      BasePos();
      MoreRanks();
      ghost var a, b := r.Avail(), o.outEnd - o.outPos;
      if counter == 0 {
        StoredEnds();
        EndBlock();
        EndRanks();
        Went(a, b, 10, 0, Rank(state));
        GoStops();
        return Go;
      }
      if o.outPos >= o.outEnd {
        StoredRoomShort();
        return NeedOutput;
      }
      if r.inPos >= |r.src| {
        StoredByteShort();
        return NeedInput;
      }
      var n := counter;
      if o.outEnd - o.outPos < n {
        n := o.outEnd - o.outPos;
      }
      if |r.src| - r.inPos < n {
        n := |r.src| - r.inPos;
      }
      CopyBytes(n);
      EnterStoredCopy();
      MadeOutput(a, b, 10, 0);
      GoStops();
      out := Go;
    }

    lemma StoredRoomShort()
      requires state.StoredCopy? && 0 <= r.Pos() && o.outPos == o.outEnd && counter > 0
      requires Rest(TableBytes(r.Bits(), r.Pos(), o.out, counter))
      ensures Stopped(NeedOutput)
    {
      hide Toward, Inflater.Stopped;
      StoredBytesWait(goal, Fin(), r.Bits(), r.Pos(), o.out, counter);
      StoredLonger();
      OutputShort();
    }

    lemma StoredLonger()
      requires 0 <= r.Pos() && counter > 0 && Rest(TableBytes(r.Bits(), r.Pos(), o.out, counter))
      ensures Wants(goal, o.out)
    {
      hide TableBytes, TableBlocks;
      BytesOnward(r.Bits(), r.Pos(), o.out, counter);
      var q := TableBytes(r.Bits(), r.Pos(), o.out, counter);
      if q.Complete? {
        ThenOnward(Fin(), r.Bits(), q, q.pos, q.out);
      }
    }

    /** Copies n bytes of input. */
    method CopyBytes(n: nat)
      requires Base() && 0 <= r.Pos() && r.numBits == 0 && 0 < n <= counter && o.outPos + n <= o.outEnd
      requires r.inPos + n <= |r.src|
      requires Rest(TableBytes(r.Bits(), r.Pos(), o.out, counter))
      modifies `counter, r`inPos, o`outPos, o`out, o.buf
      ensures Base() && 0 <= r.Pos() && r.numBits == 0 && o.outPos == old(o.outPos) + n && r.Avail() <= old(r.Avail())
      ensures Rest(TableBytes(r.Bits(), r.Pos(), o.out, counter))
    {
      hide *;
      for k := 0 to n
        invariant Base() && 0 <= r.Pos() && r.numBits == 0 && counter == old(counter) - k
        invariant o.outPos == old(o.outPos) + k
        invariant r.inPos == old(r.inPos) + k && r.Avail() <= old(r.Avail())
        invariant Rest(TableBytes(r.Bits(), r.Pos(), o.out, counter))
      {
        BasePos();
        ghost var pos := r.Pos();
        var ok, c := r.GetByte();
        StoredOne(pos, c);
        BufferApart();
        o.Put(c);
        BaseAgain();
        counter := counter - 1;
      }
    }

    // ----- the header of a dynamic block -----

    lemma OpenCounts() returns (start: nat)
      requires Inv() && state.Counts?
      ensures Base() && counter < 3 && r.Pos() == start + CountsBits(counter)
      ensures Rest(TableDynamic(r.Bits(), start, o.out))
      ensures counter > 0 ==> 257 <= size0 <= 288 && Field(r.Bits(), start, 5) == Some((size0 - 257) as nat)
      ensures counter > 1 ==> 1 <= size1 <= 32 && Field(r.Bits(), start + 5, 5) == Some((size1 - 1) as nat)
    {
      hide Inflater.Base, Inflater.Shape, Inflater.CountsLead, Inflater.CountsBits, BitReader.Pos;
      Opened();
      BasePos();
      start := CountsStart(r.Pos(), o.out);
    }

    lemma CountsStart(pos: nat, out: seq<byte>) returns (start: nat)
      requires CountsLead(pos, out)
      ensures counter < 3 && pos == start + CountsBits(counter) && Rest(TableDynamic(r.Bits(), start, out))
      ensures counter > 0 ==> 257 <= size0 <= 288 && Field(r.Bits(), start, 5) == Some((size0 - 257) as nat)
      ensures counter > 1 ==> 1 <= size1 <= 32 && Field(r.Bits(), start + 5, 5) == Some((size1 - 1) as nat)
    {
      hide Inflater.Rest, Field, TableDynamic, Inflater.CountsBits;
      start := pos - CountsBits(counter);
    }

    lemma EnterCounts(start: nat)
      requires Base() && state.Counts? && counter < 3 && r.Pos() == start + CountsBits(counter)
      requires Rest(TableDynamic(r.Bits(), start, o.out))
      requires counter > 0 ==> 257 <= size0 <= 288 && Field(r.Bits(), start, 5) == Some((size0 - 257) as nat)
      requires counter > 1 ==> 1 <= size1 <= 32 && Field(r.Bits(), start + 5, 5) == Some((size1 - 1) as nat)
      ensures Inv()
    {
      hide *;
      BasePos();
      CountsLeadNow(start, r.Pos(), o.out);
      CountsControl();
      HeaderIn();
      EnterHeader();
    }

    lemma CountsControl()
      requires state.Counts? && 0 <= r.Pos() && t2.sizes.Length == 19 && lenCodes.Length == 457
      requires CountsLead(r.Pos(), o.out)
      ensures HeaderControl()
    {
      hide Inflater.CountsLead, BitReader.Pos;
    }

    lemma HeaderIn()
      requires state.Counts? || state.ClSizes? || state.CodeLengths? || state.CodeRun?
      ensures InHeader()
    {
    }


    lemma CountsLeadNow(start: nat, pos: nat, out: seq<byte>)
      requires counter < 3 && pos == start + CountsBits(counter) && Rest(TableDynamic(r.Bits(), start, out))
      requires counter > 0 ==> 257 <= size0 <= 288 && Field(r.Bits(), start, 5) == Some((size0 - 257) as nat)
      requires counter > 1 ==> 1 <= size1 <= 32 && Field(r.Bits(), start + 5, 5) == Some((size1 - 1) as nat)
      ensures CountsLead(pos, out)
    {
      hide Inflater.Rest, Field, TableDynamic, Inflater.CountsBits;
      assert pos - CountsBits(counter) == start;
    }

    lemma OpenClSizes() returns (start: nat)
      requires Inv() && state.ClSizes?
      ensures Base() && t2.sizes.Length == 19 && SizesOk() && 4 <= size2 <= 19 && counter <= size2
      ensures r.Pos() == start + 3 * counter
      ensures Rest(AtCl(r.Bits(), start, o.out, size0, size1, size2, t2.sizes[..], counter)) && ClSizesOk()
    {
      hide Inflater.Base, Inflater.Rest, Inflater.Shape, AtCl, BitReader.Pos;
      Opened();
      BasePos();
      start := r.Pos() - 3 * counter;
    }

    lemma EnterClSizes(start: nat)
      requires Base() && state.ClSizes? && t2.sizes.Length == 19 && SizesOk() && 4 <= size2 <= 19 && counter <= size2
      requires r.Pos() == start + 3 * counter
      requires Rest(AtCl(r.Bits(), start, o.out, size0, size1, size2, t2.sizes[..], counter)) && ClSizesOk()
      ensures Inv()
    {
      hide *;
      BasePos();
      ClLeadsNow(start, r.Pos(), o.out, t2.sizes[..]);
      ClControl();
      HeaderIn();
      EnterHeader();
    }

    lemma ClLeadsNow(start: nat, pos: nat, out: seq<byte>, sizes: seq<nat>)
      requires SizesOk() && 4 <= size2 <= 19 && counter <= size2 && pos == start + 3 * counter && |sizes| == 19
      requires Rest(AtCl(r.Bits(), start, out, size0, size1, size2, sizes, counter))
      ensures ClLeads(pos, out, sizes)
    {
      hide Inflater.Rest, Inflater.SizesOk, AtCl;
      assert pos - 3 * counter == start;
    }

    lemma ClControl()
      requires state.ClSizes? && 0 <= r.Pos() && t2.sizes.Length == 19 && lenCodes.Length == 457
      requires ClLeads(r.Pos(), o.out, t2.sizes[..]) && ClSizesOk()
      ensures HeaderControl()
    {
      hide Inflater.ClLeads, Inflater.ClSizesOk, BitReader.Pos;
    }


    lemma OpenCodeLengths()
      requires Inv() && state.CodeLengths?
      ensures Base() && 0 <= r.Pos() && lenCodes.Length == 457 && LengthsRead(ll)
      ensures Rest(AtLengths(r.Bits(), r.Pos(), o.out, size0, size1, ll, lenCodes[..counter]))
      ensures filling ==> counter < size0 + size1 && r.numBits < 15 && Beyond(ll, r.Bits(), r.Pos(), r.numBits)
    {
      hide Inflater.Base, Inflater.Rest, Inflater.Shape, AtLengths, Beyond, CodeTable.Holds;
      Opened();
      BasePos();
    }

    lemma EnterCodeLengths()
      requires Base() && state.CodeLengths? && 0 <= r.Pos() && lenCodes.Length == 457 && LengthsRead(ll)
      requires Rest(AtLengths(r.Bits(), r.Pos(), o.out, size0, size1, ll, lenCodes[..counter]))
      requires filling ==> counter < size0 + size1 && r.numBits < 15 && Beyond(ll, r.Bits(), r.Pos(), r.numBits)
      ensures Inv()
    {
      hide Inflater.Base, Inflater.Inv, Inflater.Rest, Inflater.Shape, Inflater.LengthsRead, AtLengths, Beyond;
      hide CodeTable.Holds;
      BasePos();
      EnterLengths();
      EnterHeader();
    }

    lemma EnterLengths()
      requires state.CodeLengths? && 0 <= r.Pos() && t2.sizes.Length == 19 && lenCodes.Length == 457 && LengthsRead(ll)
      requires Rest(AtLengths(r.Bits(), r.Pos(), o.out, size0, size1, ll, lenCodes[..counter]))
      requires filling ==> counter < size0 + size1 && r.numBits < 15 && Beyond(ll, r.Bits(), r.Pos(), r.numBits)
      ensures HeaderControl()
    {
      hide Inflater.Rest, Inflater.LengthsRead, AtLengths, Beyond;
      LengthsFit();
    }

    lemma LengthsFit()
      requires lenCodes.Length == 457 && LengthsRead(ll)
      ensures counter <= 457 && SizesOk() && |ll| == 19 && t2.Holds(ll)
      ensures forall i :: 0 <= i < counter ==> lenCodes[i] < 16
      ensures 257 <= size0 <= 288 && 1 <= size1 <= 32
    {
      hide CodeTable.Holds;
    }

    lemma OpenCodeRun()
      requires Inv() && state.CodeRun?
      ensures Base() && 0 <= r.Pos() && lenCodes.Length == 457 && LengthsRead(ll)
      ensures counter < size0 + size1 && 16 <= dist <= 18 && (dist == 16 ==> counter > 0)
      ensures Rest(AtRun(r.Bits(), r.Pos(), o.out, size0, size1, ll, lenCodes[..counter], dist))
    {
      hide Inflater.Base, Inflater.Rest, Inflater.Shape, AtRun, CodeTable.Holds;
      Opened();
      BasePos();
    }

    lemma EnterCodeRun()
      requires Base() && state.CodeRun? && 0 <= r.Pos() && lenCodes.Length == 457 && LengthsRead(ll) && counter <= 457
      requires counter < size0 + size1 && 16 <= dist <= 18 && (dist == 16 ==> counter > 0)
      requires Rest(AtRun(r.Bits(), r.Pos(), o.out, size0, size1, ll, lenCodes[..counter], dist))
      ensures Inv()
    {
      hide Inflater.Base, Inflater.Inv, Inflater.Rest, Inflater.Shape, Inflater.LengthsRead, AtRun;
      BasePos();
      EnterHeader();
    }

    lemma CountBits()
      ensures CountsBits(0) == 0 && CountsBits(1) == 5 && CountsBits(2) == 10
      ensures Pow2(5) == 32 && Pow2(4) == 16 && Pow2(3) == 8
    {
      Pow2Values();
    }

    lemma CountsShort(start: nat, n: nat)
      requires Base() && 0 <= r.Pos() && r.inPos == |r.src| && r.numBits < n && counter < 3
      requires r.Pos() == start + CountsBits(counter)
      requires n == if counter < 2 then 5 else 4
      requires Rest(TableDynamic(r.Bits(), start, o.out))
      ensures Stopped(NeedInput)
    {
      hide Toward, TableDynamic, BitReader.Valid, OutputWindow.Valid, Inflater.Stopped, Inflater.Shape;
      CountsWait(goal, Fin(), r.Bits(), start, o.out);
      InputShort(n);
    }

    lemma CountsAll(start: nat, v: nat)
      requires Rest(TableDynamic(r.Bits(), start, o.out)) && 257 <= size0 && 1 <= size1
      requires Field(r.Bits(), start, 5) == Some((size0 - 257) as nat)
      requires Field(r.Bits(), start + 5, 5) == Some((size1 - 1) as nat)
      requires Field(r.Bits(), start + 10, 4) == Some(v)
      ensures Rest(AtCl(r.Bits(), start + 14, o.out, size0, size1, v + 4, Repeat(0, 19), 0))
    {
      hide Toward, TableDynamic, AtCl, Field, Repeat;
      CountsRead(goal, Fin(), r.Bits(), start, o.out, size0 - 257, size1 - 1, v);
    }

    /** Reads one of the three counts that open a dynamic block. */
    method ReadCount() returns (out: Outcome)
      requires Inv() && state.Counts?
      modifies `state, `counter, `size0, `size1, `size2, t2.sizes, r`inPos, r`numBits, r`bitBuf
      ensures Inv() && Stopped(out) && (out.Go? || out.NeedInput?)
      ensures out.Go? ==> Less(old(r.Avail()), old(o.outEnd - o.outPos), 27, 0)
    {
      hide *;
      ghost var start := OpenCounts();
      CountBits();
      BasePos();
      BufferApart();
      ghost var a, b := r.Avail(), o.outEnd - o.outPos;
      var n := if counter < 2 then 5 else 4;
      var ok, v := r.Get(n);
      if !ok {
        GotNothing();
        CountsShort(start, n);
        EnterCounts(start);
        return NeedInput;
      }
      Got(n, a);
      if counter == 0 {
        size0, counter := v + 257, 1;
        BaseAgain();
        EnterCounts(start);
      } else if counter == 1 {
        size1, counter := v + 1, 2;
        BaseAgain();
        EnterCounts(start);
      } else {
        StartClSizes(start, v);
      }
      TookInput(a, b, 27, 0);
      GoStops();
      out := Go;
    }

    /** All three counts are there. */
    method StartClSizes(ghost start: nat, v: nat)
      requires Shape() && r.Valid() && r.numBits <= 61 && o.Valid() && o.buf !in Arrays() && r.Pos() == start + 14
      requires v < 16
      requires Rest(TableDynamic(r.Bits(), start, o.out)) && 257 <= size0 <= 288 && 1 <= size1 <= 32
      requires Field(r.Bits(), start, 5) == Some((size0 - 257) as nat)
      requires Field(r.Bits(), start + 5, 5) == Some((size1 - 1) as nat)
      requires Field(r.Bits(), start + 10, 4) == Some(v)
      modifies `state, `counter, `size2, t2.sizes
      ensures Inv()
    {
      hide *;
      CountsAll(start, v);
      SizesBounded();
      size2, counter, state := v + 4, 0, ClSizes;
      ClearSizes();
      EnterClSizes(start + 14);
    }

    lemma SizesBounded()
      requires 257 <= size0 <= 288 && 1 <= size1 <= 32
      ensures SizesOk()
    {
    }

    lemma GotNothing()
      requires Shape() && r.Valid() && r.numBits < 15 && o.Valid() && o.buf !in Arrays()
      ensures Base() && 0 <= r.Pos()
    {
    }

    lemma Got(n: nat, a: int)
      requires r.Avail() == a - n && n > 0
      ensures r.Avail() < a
    {
    }

    ghost predicate ClSizesOk()
      reads t2.sizes
    {
      forall i :: 0 <= i < t2.sizes.Length ==> t2.sizes[i] < 8
    }

    /** Clears the code length code's lengths. */
    method ClearSizes()
      requires Shape() && r.Valid() && r.numBits <= 61 && o.Valid() && o.buf !in Arrays()
      modifies t2.sizes
      ensures Base() && t2.sizes.Length == 19 && t2.sizes[..] == Repeat(0, 19) && ClSizesOk()
    {
      hide BitReader.Valid, OutputWindow.Valid;
      forall i | 0 <= i < t2.sizes.Length {
        t2.sizes[i] := 0;
      }
      assert t2.sizes[..] == Repeat(0, 19);
    }

    lemma ClShort(start: nat)
      requires Base() && 0 <= r.Pos() && r.inPos == |r.src| && r.numBits < 3 && counter < size2 <= 19
      requires r.Pos() == start + 3 * counter
      requires t2.sizes.Length == 19 && Rest(AtCl(r.Bits(), start, o.out, size0, size1, size2, t2.sizes[..], counter))
      ensures Stopped(NeedInput)
    {
      hide Toward, AtCl, BitReader.Valid, OutputWindow.Valid, Inflater.Stopped, Inflater.Shape;
      ClWaits(goal, Fin(), r.Bits(), start, o.out, size0, size1, size2, t2.sizes[..], counter);
      InputShort(3);
    }

    lemma ClIs(start: nat, v: nat)
      requires counter < size2 <= 19 && t2.sizes.Length == 19
      requires Rest(AtCl(r.Bits(), start, o.out, size0, size1, size2, t2.sizes[..], counter))
      requires Field(r.Bits(), start + 3 * counter, 3) == Some(v)
      ensures Rest(AtCl(r.Bits(), start, o.out, size0, size1, size2, t2.sizes[..][Order(counter) := v], counter + 1))
    {
      hide Toward, AtCl, Field, Order;
      ClRead(goal, Fin(), r.Bits(), start, o.out, size0, size1, size2, t2.sizes[..], counter, v);
    }

    lemma ClEnds(start: nat)
      requires counter == size2 <= 19 && t2.sizes.Length == 19 && r.Pos() == start + 3 * counter
      requires Rest(AtCl(r.Bits(), start, o.out, size0, size1, size2, t2.sizes[..], counter))
      ensures !CodeOk(t2.sizes[..]) ==> Fails(goal)
      ensures CodeOk(t2.sizes[..]) ==> Rest(AtLengths(r.Bits(), r.Pos(), o.out, size0, size1, t2.sizes[..], []))
    {
      hide Toward, AtCl, AtLengths, CodeOk;
      ClDone(goal, Fin(), r.Bits(), start, o.out, size0, size1, size2, t2.sizes[..]);
    }

    lemma ClStored(before: seq<nat>, i: nat, v: nat)
      requires |before| == t2.sizes.Length && i < |before| && v < 8 && t2.sizes[..] == before[i := v]
      requires forall j :: 0 <= j < |before| ==> before[j] < 8
      ensures ClSizesOk()
    {
      forall j | 0 <= j < t2.sizes.Length ensures t2.sizes[j] < 8 {
        assert t2.sizes[j] == t2.sizes[..][j];
      }
    }

    lemma ClSmall()
      requires ClSizesOk()
      ensures forall j :: 0 <= j < t2.sizes.Length ==> t2.sizes[..][j] < 8
      ensures LengthsOk(t2.sizes[..])
    {
    }

    /** Stores a length of the code length code. */
    method StoreClSize(v: nat)
      requires Shape() && r.Valid() && r.numBits <= 61 && o.Valid() && o.buf !in Arrays() && ClSizesOk() && counter < 19
      requires v < 8
      modifies t2.sizes
      ensures Base() && t2.sizes.Length == 19 && t2.sizes[..] == old(t2.sizes[..])[Order(counter) := v] && ClSizesOk()
    {
      hide BitReader.Valid, OutputWindow.Valid, Inflater.ClSizesOk, Order;
      ClSmall();
      ghost var before := t2.sizes[..];
      t2.sizes[Order(counter)] := v;
      assert t2.sizes[..] == before[Order(counter) := v];
      ClStored(before, Order(counter), v);
    }

    /** Reads a length of the code length code, or builds its tables. */
    method ReadClSize() returns (out: Outcome)
      requires Inv() && state.ClSizes?
      modifies `state, `counter, `filling, `ll, t2.sizes, t2.lookUp, t2.tree, r`inPos, r`numBits, r`bitBuf
      ensures Inv() && Stopped(out) && (out.Go? || out.NeedInput? || out.Bad?)
      ensures out.Go? ==> Less(old(r.Avail()), old(o.outEnd - o.outPos), 26, 0)
    {
      hide *;
      ghost var start := OpenClSizes();
      CountBits();
      BasePos();
      BufferApart();
      ghost var a, b := r.Avail(), o.outEnd - o.outPos;
      if counter < size2 {
        var ok, v := r.Get(3);
        if !ok {
          GotNothing();
          ClShort(start);
          EnterClSizes(start);
          return NeedInput;
        }
        Got(3, a);
        ClIs(start, v);
        BaseAgain();
        BasePos();
        StoreClSize(v);
        counter := counter + 1;
        EnterClSizes(start);
        TookInput(a, b, 26, 0);
      } else {
        ClEnds(start);
        out := FinishCl();
        if out.Go? {
          MoreRanks();
          Went(a, b, 26, 0, 24);
        }
        return;
      }
      GoStops();
      out := Go;
    }

    /** The code length code is known: builds its tables. */
    method FinishCl() returns (out: Outcome)
      requires Base() && 0 <= r.Pos() && t2.sizes.Length == 19 && SizesOk() && ClSizesOk()
      requires !CodeOk(t2.sizes[..]) ==> Fails(goal)
      requires CodeOk(t2.sizes[..]) ==> Rest(AtLengths(r.Bits(), r.Pos(), o.out, size0, size1, t2.sizes[..], []))
      modifies `state, `counter, `filling, `ll, t2.lookUp, t2.tree
      ensures Inv() && Stopped(out) && (out.Bad? || (out.Go? && state.CodeLengths?))
    {
      hide *;
      BasePos();
      BufferApart();
      var ok := BuildCl();
      BaseAgain();
      if !ok {
        state := Failed;
        EnterFailed();
        BadStops();
        return Bad;
      }
      ll, counter, filling, state := t2.sizes[..], 0, false, CodeLengths;
      NoLengths();
      EnterCodeLengths();
      GoStops();
      out := Go;
    }

    /** No code length has been read yet. */
    lemma NoLengths()
      requires lenCodes.Length == 457 && counter == 0 && SizesOk() && t2.Holds(ll) && |ll| == 19
      ensures LengthsRead(ll) && lenCodes[..counter] == []
    {
      hide CodeTable.Holds;
    }

    /** Builds the tables of the code length code. */
    method BuildCl() returns (ok: bool)
      requires Base() && ClSizesOk() && t2.sizes.Length == 19
      modifies t2.lookUp, t2.tree
      ensures Shape() && r.Valid() && r.numBits <= 61 && o.Valid() && o.buf !in Arrays()
      ensures (ok <==> CodeOk(t2.sizes[..])) && (ok ==> t2.Holds(t2.sizes[..])) && t2.sizes[..] == old(t2.sizes[..])
    {
      hide BitReader.Valid, OutputWindow.Valid, Inflater.ClSizesOk, CodeTable.Holds, CodeOk;
      ClSmall();
      assert t2.sizes[..19] == t2.sizes[..];
      ok := t2.Build(19);
      assert t2.sizes[..19] == t2.sizes[..];
    }

    // ----- the code lengths of a dynamic block -----

    lemma LengthShortHere()
      requires Base() && 0 <= r.Pos() && r.inPos == |r.src| && counter < size0 + size1
      requires Beyond(ll, r.Bits(), r.Pos(), r.numBits)
      requires lenCodes.Length == 457 && counter <= 457
      requires Rest(AtLengths(r.Bits(), r.Pos(), o.out, size0, size1, ll, lenCodes[..counter]))
      ensures Stopped(NeedInput)
    {
      hide Toward, AtLengths, Beyond, BitReader.Valid, OutputWindow.Valid, Inflater.Stopped, Inflater.Shape;
      LengthSymbolWaits(goal, Fin(), r.Bits(), r.Pos(), o.out, size0, size1, ll, lenCodes[..counter], r.numBits);
      InputShort(r.numBits + 1);
    }

    lemma LengthSymbolIs(pos: nat, sym: nat, len: nat)
      requires counter < size0 + size1 && counter <= 457 == lenCodes.Length && Right(ll, r.Bits(), pos, sym, len)
      requires Rest(AtLengths(r.Bits(), pos, o.out, size0, size1, ll, lenCodes[..counter]))
      ensures sym < 16 ==> Rest(AtLengths(r.Bits(), pos + len, o.out, size0, size1, ll, lenCodes[..counter] + [sym]))
      ensures sym == 16 && counter == 0 ==> Fails(goal)
      ensures 16 <= sym <= 18 && (sym == 16 ==> counter > 0) ==>
        Rest(AtRun(r.Bits(), pos + len, o.out, size0, size1, ll, lenCodes[..counter], sym))
    {
      hide Toward, AtLengths, AtRun, Right;
      LengthSymbolRead(goal, Fin(), r.Bits(), pos, o.out, size0, size1, ll, lenCodes[..counter], sym, len);
    }

    lemma RunShort()
      requires Base() && 0 <= r.Pos() && r.inPos == |r.src| && r.numBits < RunBits(dist)
      requires lenCodes.Length == 457 && counter <= 457
      requires Rest(AtRun(r.Bits(), r.Pos(), o.out, size0, size1, ll, lenCodes[..counter], dist))
      ensures Stopped(NeedInput)
    {
      hide Toward, AtRun, RunBits, BitReader.Valid, OutputWindow.Valid, Inflater.Stopped, Inflater.Shape;
      RunWaits(goal, Fin(), r.Bits(), r.Pos(), o.out, size0, size1, ll, lenCodes[..counter], dist);
      InputShort(RunBits(dist));
    }

    lemma RunIs(pos: nat, v: nat)
      requires counter <= 457 == lenCodes.Length && (dist == 16 ==> counter > 0)
      requires Rest(AtRun(r.Bits(), pos, o.out, size0, size1, ll, lenCodes[..counter], dist))
      requires Field(r.Bits(), pos, RunBits(dist)) == Some(v)
      ensures Rest(AtLengths(r.Bits(), pos + RunBits(dist), o.out, size0, size1, ll,
                lenCodes[..counter] + Repeat(if dist == 16 then lenCodes[counter - 1] else 0, v + RunBase(dist))))
    {
      hide Toward, AtRun, AtLengths, RunBits, RunBase, Field, Repeat;
      assert dist == 16 ==> lenCodes[..counter] != [];
      RunRead(goal, Fin(), r.Bits(), pos, o.out, size0, size1, ll, lenCodes[..counter], dist, v);
    }

    /** The run of lengths ends inside the array. */
    lemma RunFits(v: nat)
      requires 16 <= dist <= 18 && v < Pow2(RunBits(dist))
      ensures v + RunBase(dist) <= 138 && RunBits(dist) <= 7
    {
      Pow2Values();
    }

    lemma RunBitsSmall()
      requires 16 <= dist <= 18
      ensures 0 < RunBits(dist) <= 7
    {
    }

    /** n copies of a length. */
    method SetRun(v: nat, n: nat)
      requires lenCodes.Length == 457 && counter + n <= 457 && v < 16 && LengthsRead(ll)
      requires r.Valid() && o.Valid() && Shape() && r.numBits <= 61 && o.buf !in Arrays()
      modifies lenCodes
      ensures Base() && lenCodes[..counter + n] == old(lenCodes[..counter]) + Repeat(v, n)
      ensures SizesOk() && t2.Holds(ll) && |ll| == 19 && forall i :: 0 <= i < counter + n ==> lenCodes[i] < 16
    {
      hide BitReader.Valid, OutputWindow.Valid, CodeTable.Holds;
      forall i | counter <= i < counter + n {
        lenCodes[i] := v;
      }
    }

    lemma LengthsNow()
      requires lenCodes.Length == 457 && counter <= 457 && SizesOk() && t2.Holds(ll) && |ll| == 19
      requires forall i :: 0 <= i < counter ==> lenCodes[i] < 16
      ensures LengthsRead(ll)
    {
      hide CodeTable.Holds;
    }

    /** Reads the extra bits of a run of code lengths and writes the run. */
    method ReadRun() returns (out: Outcome)
      requires Inv() && state.CodeRun?
      modifies `state, `counter, `filling, `numExtra, lenCodes, r`inPos, r`numBits, r`bitBuf
      ensures Inv() && Stopped(out) && (out.Go? || out.NeedInput?)
      ensures out.Go? ==> Less(old(r.Avail()), old(o.outEnd - o.outPos), 25, 0)
    {
      hide *;
      OpenCodeRun();
      BasePos();
      LengthsFit();
      RunBitsSmall();
      ghost var pos, a, b := r.Pos(), r.Avail(), o.outEnd - o.outPos;
      numExtra := RunBits(dist);
      var ok, v := r.Get(numExtra);
      if !ok {
        GotNothing();
        RunShort();
        EnterCodeRun();
        return NeedInput;
      }
      Got(numExtra, a);
      RunIs(pos, v);
      RunFits(v);
      BaseAgain();
      WriteRun(v + RunBase(dist));
      TookInput(a, b, 25, 0);
      GoStops();
      out := Go;
    }

    /** Writes a run of n code lengths. */
    method WriteRun(n: nat)
      requires Base() && 0 <= r.Pos() && lenCodes.Length == 457 && LengthsRead(ll) && counter < size0 + size1
      requires n <= 138 && (dist == 16 ==> counter > 0)
      requires counter <= 457
      requires Rest(AtLengths(r.Bits(), r.Pos(), o.out, size0, size1, ll,
                 lenCodes[..counter] + Repeat(if dist == 16 then lenCodes[counter - 1] else 0, n)))
      modifies `state, `counter, `filling, lenCodes
      ensures Inv()
    {
      hide *;
      BufferApart();
      BasePos();
      LengthsFit();
      SetRun(if dist == 16 then lenCodes[counter - 1] else 0, n);
      counter, filling, state := counter + n, false, CodeLengths;
      LengthsNow();
      EnterCodeLengths();
    }

    lemma OneMore(before: seq<nat>, sym: nat)
      requires counter < 457 == lenCodes.Length && sym < 16 && |before| == 457 && lenCodes[..] == before[counter := sym]
      requires forall i :: 0 <= i < counter ==> before[i] < 16
      ensures lenCodes[..counter + 1] == before[..counter] + [sym]
      ensures forall i :: 0 <= i < counter + 1 ==> lenCodes[i] < 16
    {
      assert forall i :: 0 <= i < 457 ==> lenCodes[i] == lenCodes[..][i];
    }

    /** Stores a code length. */
    method StoreLength(sym: nat)
      requires Base() && 0 <= r.Pos() && lenCodes.Length == 457 && counter < 457 && sym < 16 && LengthsRead(ll)
      requires state.CodeLengths? && !filling
      requires Rest(AtLengths(r.Bits(), r.Pos(), o.out, size0, size1, ll, lenCodes[..counter] + [sym]))
      modifies `counter, lenCodes
      ensures Inv() && counter == old(counter) + 1
    {
      hide *;
      BasePos();
      BufferApart();
      LengthsFit();
      ghost var before := lenCodes[..];
      assert before[..counter] == lenCodes[..counter];
      lenCodes[counter] := sym;
      assert lenCodes[..] == before[counter := sym];
      OneMore(before, sym);
      BaseAgain();
      counter := counter + 1;
      LengthsNow();
      EnterCodeLengths();
    }

    lemma LengthLeft()
      requires state.CodeLengths?
      ensures Left() == if counter < size0 + size1 then size0 + size1 - counter else 0
    {
    }

    lemma WentLength(a: int, b: int, e: nat)
      requires r.Avail() <= a && o.outEnd - o.outPos <= b && state.CodeLengths? && Left() < e
      ensures Less(a, b, 24, e)
    {
    }

    /** A code length symbol: a length, or the start of a run. */
    method ReadLengthSymbol() returns (out: Outcome)
      requires Inv() && state.CodeLengths? && counter < size0 + size1
      modifies `state, `counter, `filling, `dist, lenCodes, r`inPos, r`numBits, r`bitBuf
      ensures Inv() && Stopped(out) && (out.Go? || out.NeedInput? || out.Bad?)
      ensures out.Go? ==> Less(old(r.Avail()), old(o.outEnd - o.outPos), 24, old(Left()))
    {
      hide *;
      OpenCodeLengths();
      BasePos();
      LengthsFit();
      ClFacts();
      LengthLeft();
      ghost var pos, a, b, e := r.Pos(), r.Avail(), o.outEnd - o.outPos, Left();
      var ok, sym;
      ghost var len;
      ok, sym, len := ReadSymbol(r, t2.lookUp, t2.tree, filling, ll);
      BaseAgain();
      if !ok {
        filling := true;
        LengthShortHere();
        EnterCodeLengths();
        return NeedInput;
      }
      filling := false;
      LengthSymbolIs(pos, sym, len);
      dist := sym;
      if sym < 16 {
        StoreLength(sym);
        LengthLeft();
        WentLength(a, b, e);
      } else {
        out := StartRun();
        if out.Go? {
          TookInput(a, b, 24, e);
        }
        return;
      }
      GoStops();
      out := Go;
    }

    /** A symbol for a run: there must be a length to repeat. */
    method StartRun() returns (out: Outcome)
      requires Base() && 0 <= r.Pos() && lenCodes.Length == 457 && LengthsRead(ll) && counter <= 457
      requires counter < size0 + size1
      requires 16 <= dist <= 18 && (dist == 16 && counter == 0 ==> Fails(goal))
      requires (dist == 16 ==> counter > 0) ==> Rest(AtRun(r.Bits(), r.Pos(), o.out, size0, size1, ll,
          lenCodes[..counter], dist))
      modifies `state
      ensures Inv() && Stopped(out) && (out.Go? || out.Bad?)
    {
      hide *;
      if dist == 16 && counter == 0 {
        state := Failed;
        EnterFailed();
        BadStops();
        out := Bad;
      } else {
        state := CodeRun;
        EnterCodeRun();
        GoStops();
        out := Go;
      }
    }

    lemma ClFacts()
      requires lenCodes.Length == 457 && LengthsRead(ll)
      ensures Feasible(ll) && |ll| == 19 && TablesFor(ll, t2.lookUp[..], t2.tree[..])
    {
      hide Feasible, TablesFor, CodeOk;
    }

    lemma LengthsEnd()
      requires 0 <= r.Pos() && counter <= 457 == lenCodes.Length && counter >= size0 + size1
      requires Rest(AtLengths(r.Bits(), r.Pos(), o.out, size0, size1, ll, lenCodes[..counter]))
      ensures counter != size0 + size1 ==> Fails(goal)
      ensures counter == size0 + size1 && (!CodeOk(lenCodes[size0..counter]) || !CodeOk(lenCodes[..size0]))
          ==> Fails(goal)
      ensures counter == size0 + size1 && CodeOk(lenCodes[size0..counter]) && CodeOk(lenCodes[..size0])
          ==> Rest(TableBody(lenCodes[..size0], lenCodes[size0..counter], r.Bits(), r.Pos(), o.out))
    {
      hide Toward, AtLengths, TableBody, CodeOk;
      LengthsDone(goal, Fin(), r.Bits(), r.Pos(), o.out, size0, size1, ll, lenCodes[..counter]);
      if counter == size0 + size1 {
        assert lenCodes[..counter][..size0] == lenCodes[..size0];
        assert lenCodes[..counter][size0..] == lenCodes[size0..counter];
      }
    }

    /** All code lengths are there: builds the tables of both codes. */
    method FinishLengths() returns (out: Outcome)
      requires Inv() && state.CodeLengths? && counter >= size0 + size1
      modifies `state, `filling, `ll, `d, t0.sizes, t0.lookUp, t0.tree, t1.sizes, t1.lookUp, t1.tree
      ensures Inv() && Stopped(out) && (out.Go? || out.Bad?)
      ensures out.Go? ==> Less(old(r.Avail()), old(o.outEnd - o.outPos), 24, 0)
    {
      hide *;
      OpenCodeLengths();
      BasePos();
      LengthsFit();
      LengthsEnd();
      ghost var a, b := r.Avail(), o.outEnd - o.outPos;
      if counter != size0 + size1 {
        state := Failed;
        EnterFailed();
        BadStops();
        return Bad;
      }
      LengthsBounds();
      ghost var newLl, newD := lenCodes[..size0], lenCodes[size0..counter];
      CopyLengths();
      out := StartBody(size0, size1, newLl, newD);
      if out.Go? {
        MoreRanks();
        Went(a, b, 24, 0, 15);
      }
    }

    /** Builds the tables of both codes, and the body of the block is next. */
    method StartBody(n0: nat, n1: nat, ghost newLl: seq<nat>, ghost newD: seq<nat>) returns (out: Outcome)
      requires Base() && 0 <= r.Pos() && n0 <= t0.sizes.Length && n1 <= t1.sizes.Length && |newD| <= 32
      requires newLl == t0.sizes[..n0] && newD == t1.sizes[..n1] && LengthsOk(newLl) && LengthsOk(newD)
      requires !CodeOk(newD) || !CodeOk(newLl) ==> Fails(goal)
      requires CodeOk(newD) && CodeOk(newLl) ==> Rest(TableBody(newLl, newD, r.Bits(), r.Pos(), o.out))
      modifies `state, `filling, `ll, `d, t0.lookUp, t0.tree, t1.lookUp, t1.tree
      ensures Inv() && Stopped(out) && (out.Bad? || (out.Go? && state.Symbols?))
      ensures CodeOk(newD) && CodeOk(newLl) ==> out.Go?
    {
      hide *;
      var ok := BuildBoth(n0, n1, newLl, newD);
      if !ok {
        state := Failed;
        EnterFailed();
        BadStops();
        return Bad;
      }
      ll, d, filling, state := newLl, newD, false, Symbols;
      TablesNow();
      EnterSymbols();
      GoStops();
      out := Go;
    }

    lemma TablesNow()
      requires t0.Holds(ll) && t1.Holds(d) && |d| <= 32
      ensures Tables()
    {
    }

    lemma LengthsBounds()
      requires lenCodes.Length == 457 && counter <= 457 && counter == size0 + size1
      requires forall i :: 0 <= i < counter ==> lenCodes[i] < 16
      ensures LengthsOk(lenCodes[..size0]) && LengthsOk(lenCodes[size0..counter])
    {
    }

    /** Copies the code lengths to the two codes. */
    method CopyLengths()
      requires Base() && counter == size0 + size1 && counter <= 457 && size0 <= 288 && size1 <= 32
      modifies t0.sizes, t1.sizes
      ensures Base() && size0 <= t0.sizes.Length && size1 <= t1.sizes.Length && counter <= lenCodes.Length
      ensures lenCodes[..] == old(lenCodes[..])
      ensures t0.sizes[..size0] == lenCodes[..size0] && t1.sizes[..size1] == lenCodes[size0..counter]
    {
      hide BitReader.Valid, OutputWindow.Valid;
      ghost var lens := lenCodes[..];
      forall i | 0 <= i < size0 {
        t0.sizes[i] := lenCodes[i];
      }
      assert lenCodes[..] == lens && t0.sizes[..size0] == lens[..size0];
      forall i | 0 <= i < size1 {
        t1.sizes[i] := lenCodes[size0 + i];
      }
      assert lenCodes[..] == lens && t0.sizes[..size0] == lens[..size0] && t1.sizes[..size1] == lens[size0..counter];
    }

    /** Builds the tables of the distance code, and then those of the literal and length code. */
    method BuildBoth(n0: nat, n1: nat, ghost newLl: seq<nat>, ghost newD: seq<nat>) returns (ok: bool)
      requires Base() && n0 <= t0.sizes.Length && n1 <= t1.sizes.Length
      requires newLl == t0.sizes[..n0] && newD == t1.sizes[..n1] && LengthsOk(newLl) && LengthsOk(newD)
      modifies t0.lookUp, t0.tree, t1.lookUp, t1.tree
      ensures Base() && (ok <==> CodeOk(newLl) && CodeOk(newD)) && (ok ==> t0.Holds(newLl) && t1.Holds(newD))
    {
      hide BitReader.Valid, OutputWindow.Valid, CodeTable.Holds, CodeOk, LengthsOk;
      ok := t1.Build(n1);
      if ok {
        ok := t0.Build(n0);
      }
    }

    // ----- the start and the zlib header -----

    lemma OpenEdge()
      requires Inv() && !InBody() && !InHeader() && !InStored()
      ensures Base() && 0 <= r.Pos() && EdgeControl()
    {
      hide Inflater.Base, Inflater.Shape, Inflater.EdgeControl, Inflater.BodyControl, Inflater.HeaderControl;
      hide Inflater.StoredControl;
      Opened();
    }

    /** Without a zlib header the blocks start at once. */
    lemma RawStarts()
      requires Shape() && !zlib && r.Pos() == 0 && o.out == []
      ensures Leads(goal, TableBlocks(r.Bits(), 0, o.out))
    {
      hide TableBlocks;
    }

    lemma OpenStart()
      requires Inv() && state.Start?
      ensures Base() && r.numBits == 0 && r.Pos() == 0 && o.out == []
    {
      hide Inflater.Base, Inflater.Shape;
      OpenEdge();
    }

    lemma EnterZHead0()
      requires Base() && state.ZHead0? && r.numBits == 0 && r.Pos() == 0 && o.out == [] && zlib
      ensures Inv()
    {
      hide Inflater.Base, Inflater.Inv, Inflater.Shape;
      EnterEdge();
    }

    /** The start: a header is next, or the first block. */
    method BeginStream() returns (out: Outcome)
      requires Inv() && state.Start?
      modifies `state
      ensures Inv() && out.Go? && (state.ZHead0? || state.BlockStart?)
      ensures Less(old(r.Avail()), old(o.outEnd - o.outPos), 30, 0)
    {
      hide *;
      OpenStart();
      BasePos();
      MoreRanks();
      ghost var a, b := r.Avail(), o.outEnd - o.outPos;
      if zlib {
        state := ZHead0;
        EnterZHead0();
        Went(a, b, 30, 0, 29);
      } else {
        RawStarts();
        state := BlockStart;
        EnterBlockEnd();
        Went(a, b, 30, 0, 9);
      }
      out := Go;
    }

    lemma OpenZHead0()
      requires Inv() && state.ZHead0?
      ensures Base() && r.numBits == 0 && r.Pos() == 0 && o.out == [] && zlib
    {
      hide Inflater.Base, Inflater.Shape;
      OpenEdge();
    }

    lemma OpenZHead1()
      requires Inv() && state.ZHead1?
      ensures Base() && 0 <= r.Pos() && AtZHead1()
    {
      hide Inflater.Base, Inflater.Shape, Inflater.AtZHead1;
      OpenEdge();
    }

    lemma EnterZHead1()
      requires Base() && state.ZHead1? && 0 <= r.Pos() && AtZHead1()
      ensures Inv()
    {
      hide Inflater.Base, Inflater.Inv, Inflater.Shape, Inflater.AtZHead1;
      EnterEdge();
    }

    /** A stream with a zlib header is longer than that. */
    lemma HeaderReaches()
      requires Shape() && zlib
      ensures Reaches(goal, 16) && Promises(goal, []) && (|r.Bits()| < 16 ==> Lacks(goal, []))
    {
      hide TableBlocks, ZlibHeaderOk;
      BlocksOnward(r.Bits(), 16, []);
    }

    lemma HeaderShort()
      requires Base() && zlib && r.inPos == |r.src| && r.numBits == 0 && 0 <= r.Pos() <= 8 && o.out == []
      ensures Stopped(NeedInput)
    {
      hide BitReader.Valid, OutputWindow.Valid, Inflater.Stopped, StreamReading;
      HeaderReaches();
      InputShort(8);
    }

    /** Reads the first byte of the zlib header. */
    method ReadZHead0() returns (out: Outcome)
      requires Inv() && state.ZHead0?
      modifies `state, `zhdr0, r`inPos
      ensures Inv() && Stopped(out) && (out.Go? || out.NeedInput?)
      ensures out.Go? ==> Less(old(r.Avail()), old(o.outEnd - o.outPos), 29, 0)
    {
      hide *;
      OpenZHead0();
      BasePos();
      ghost var a, b := r.Avail(), o.outEnd - o.outPos;
      var ok, c := r.GetByte();
      BaseAgain();
      if !ok {
        HeaderShort();
        EnterZHead0();
        return NeedInput;
      }
      zhdr0, state := c, ZHead1;
      ZHead1Now(c);
      EnterZHead1();
      TookInput(a, b, 29, 0);
      GoStops();
      out := Go;
    }

    lemma ZHead1Now(c: byte)
      requires r.numBits == 0 && r.Pos() == 8 && o.out == [] && zlib && zhdr0 == c
      requires Field(r.Bits(), 0, 8) == Some(c as nat)
      ensures AtZHead1()
    {
      hide Field;
    }

    /** What the two bytes of the header decide. */
    lemma HeaderDecides(flg: nat)
      requires Shape() && 0 <= r.Pos() && zlib && o.out == [] && Field(r.Bits(), 0, 8) == Some(zhdr0)
      requires Field(r.Bits(), 8, 8) == Some(flg)
      ensures !ZlibHeaderOk(zhdr0, flg, o.wrapping) ==> Fails(goal)
      ensures ZlibHeaderOk(zhdr0, flg, o.wrapping) ==> Leads(goal, TableBlocks(r.Bits(), 16, o.out))
    {
      hide TableBlocks, ZlibHeaderOk, Field;
    }

    /** The window the header asks for fits in the ring exactly when it is one the format knows. */
    lemma WindowFits(k: nat)
      requires k < 16 && 32768 <= o.modulus
      ensures Pow2(8 + k) > 32768 || o.modulus < Pow2(8 + k) <==> k > 7
    {
      Pow2Values();
      if k <= 7 {
        Pow2Monotone(8 + k, 15);
      } else {
        Pow2Monotone(16, 8 + k);
      }
    }

    lemma ZHead1Is()
      requires 0 <= r.Pos() && AtZHead1()
      ensures r.numBits == 0 && r.Pos() == 8 && o.out == [] && zlib && zhdr0 < 256
      ensures Field(r.Bits(), 0, 8) == Some(zhdr0)
    {
      hide Field;
    }

    /** Reads the second byte of the zlib header and checks both. */
    method ReadZHead1() returns (out: Outcome)
      requires Inv() && state.ZHead1?
      modifies `state, `counter, r`inPos
      ensures Inv() && Stopped(out) && (out.Go? || out.NeedInput? || out.Bad?)
      ensures out.Go? ==> Less(old(r.Avail()), old(o.outEnd - o.outPos), 28, 0)
    {
      hide *;
      OpenZHead1();
      BasePos();
      ZHead1Is();
      ghost var a, b := r.Avail(), o.outEnd - o.outPos;
      var ok, c := r.GetByte();
      BaseAgain();
      if !ok {
        HeaderShort();
        EnterZHead1();
        return NeedInput;
      }
      HeaderDecides(c);
      var bad := CheckHeader(c);
      counter := if bad then 1 else 0;
      if bad {
        state := Failed;
        EnterFailed();
        BadStops();
        return Bad;
      }
      state := BlockStart;
      EnterBlockEnd();
      TookInput(a, b, 28, 0);
      GoStops();
      out := Go;
    }

    /** The checks of the zlib header; with a ring they include the window size. */
    method CheckHeader(flg: byte) returns (bad: bool)
      requires zhdr0 < 256 && (o.wrapping ==> 32768 <= o.modulus)
      ensures bad <==> !ZlibHeaderOk(zhdr0, flg, o.wrapping)
    {
      bad := (zhdr0 * 256 + flg) % 31 != 0 || flg / 32 % 2 != 0 || zhdr0 % 16 != 8;
      if o.wrapping {
        WindowFits(zhdr0 / 16);
        bad := bad || Pow2(8 + zhdr0 / 16) > 32768 || o.modulus < Pow2(8 + zhdr0 / 16);
      }
    }

    // ----- the start of a block -----

    lemma OpenBlockStart()
      requires Inv() && state.BlockStart?
      ensures Base() && 0 <= r.Pos() && Leads(goal, TableBlocks(r.Bits(), r.Pos(), o.out))
    {
      hide Inflater.Base, Inflater.Shape, Leads, TableBlocks;
      OpenEdge();
    }

    lemma BlockShort()
      requires Base() && 0 <= r.Pos() && r.inPos == |r.src| && r.numBits < 3
      requires Leads(goal, TableBlocks(r.Bits(), r.Pos(), o.out))
      ensures Stopped(NeedInput)
    {
      hide Leads, TableBlocks, BitReader.Valid, OutputWindow.Valid, Inflater.Stopped, Inflater.Shape;
      BlockWaits(goal, r.Bits(), r.Pos(), o.out);
      InputShort(3);
    }

    lemma HeaderIs(pos: nat, h: nat)
      requires Leads(goal, TableBlocks(r.Bits(), pos, o.out)) && Field(r.Bits(), pos, 3) == Some(h) && final == h
      ensures h / 2 == 0 ==> Rest(TableStored(r.Bits(), Aligned(pos + 3), o.out))
      ensures h / 2 == 1 ==> Rest(TableBody(StaticLit(), StaticDist(), r.Bits(), pos + 3, o.out))
      ensures h / 2 == 2 ==> Rest(TableDynamic(r.Bits(), pos + 3, o.out))
      ensures h / 2 > 2 ==> Fails(goal)
    {
      hide Leads, TableBlocks, Toward, TableBlock, Field, TableStored, TableBody, TableDynamic, StaticLit, StaticDist;
      hide Aligned;
      BlockStarts(goal, r.Bits(), pos, o.out, h);
      BlockKinds(r.Bits(), pos + 3, o.out, h / 2);
      if h / 2 > 2 {
        TowardFails(goal, Fin(), r.Bits(), Wrong);
      }
    }

    /** Dropping the odd bits leads to the next byte. */
    lemma AlignedHere(pos: nat)
      requires r.Valid() && r.Pos() == pos
      ensures pos + r.numBits % 8 == Aligned(pos) && Aligned(pos) % 8 == 0
    {
      hide Holds;
      AlignedIs(pos, r.numBits, r.taken + r.inPos);
    }

    /** Reads a block's header. */
    method ReadBlockStart() returns (out: Outcome)
      requires Inv() && state.BlockStart?
      modifies `state, `counter, `final, `filling, `ll, `d, t0.sizes, t0.lookUp, t0.tree, t1.sizes, t1.lookUp, t1.tree
      modifies r`inPos, r`numBits, r`bitBuf
      ensures Inv() && Stopped(out) && (out.Go? || out.NeedInput? || out.Bad?)
      ensures out.Go? ==> Less(old(r.Avail()), old(o.outEnd - o.outPos), 9, 0)
    {
      hide *;
      OpenBlockStart();
      BasePos();
      ghost var pos, a, b := r.Pos(), r.Avail(), o.outEnd - o.outPos;
      var ok, h := r.Get(3);
      if !ok {
        GotNothing();
        BlockShort();
        EnterBlockEnd();
        return NeedInput;
      }
      Got(3, a);
      BaseAgain();
      final := h;
      HeaderIs(pos, h);
      BelowEight();
      if h / 2 == 0 {
        StartStored();
      } else if h / 2 == 3 {
        state := Failed;
        EnterFailed();
        BadStops();
        return Bad;
      } else if h / 2 == 1 {
        out := StartStatic();
        TookInput(a, b, 9, 0);
        return;
      } else {
        counter, state := 0, Counts;
        CountBits();
        EnterCounts(pos + 3);
      }
      TookInput(a, b, 9, 0);
      GoStops();
      out := Go;
    }

    lemma BelowEight()
      ensures Pow2(3) == 8
    {
      Pow2Values();
    }

    /** A stored block starts at the next byte. */
    method StartStored()
      requires Base() && 0 <= r.Pos() && Rest(TableStored(r.Bits(), Aligned(r.Pos()), o.out))
      modifies `state, `counter, r`numBits, r`bitBuf
      ensures Inv() && r.Avail() <= old(r.Avail())
    {
      hide *;
      BasePos();
      ghost var start := Aligned(r.Pos());
      AlignedHere(r.Pos());
      var skipped := r.Take(r.numBits % 8);
      BaseAgain();
      counter, state := 0, StoredHead;
      EnterStoredHead(start);
    }

    /** A block with the fixed codes. */
    method StartStatic() returns (out: Outcome)
      requires Base() && 0 <= r.Pos() && Rest(TableBody(StaticLit(), StaticDist(), r.Bits(), r.Pos(), o.out))
      modifies `state, `filling, `ll, `d, t0.sizes, t0.lookUp, t0.tree, t1.sizes, t1.lookUp, t1.tree
      ensures Inv() && Stopped(out) && out.Go?
    {
      hide *;
      BasePos();
      SetStatic();
      StaticOk();
      out := StartBody(288, 32, StaticLit(), StaticDist());
    }

    lemma StaticOk()
      ensures CodeOk(StaticLit()) && CodeOk(StaticDist()) && LengthsOk(StaticLit()) && LengthsOk(StaticDist())
      ensures |StaticDist()| == 32
    {
      hide Kraft, StaticLit, LengthsOk;
      BlockHeaders.StaticComplete();
    }

    /** Sets the lengths of the fixed codes. */
    method SetStatic()
      requires Base()
      modifies t0.sizes, t1.sizes
      ensures Base() && 288 <= t0.sizes.Length && 32 <= t1.sizes.Length
      ensures t0.sizes[..288] == StaticLit() && t1.sizes[..32] == StaticDist()
    {
      hide BitReader.Valid, OutputWindow.Valid;
      forall i | 0 <= i < 32 {
        t1.sizes[i] := 5;
      }
      forall i | 0 <= i < 288 {
        t0.sizes[i] := if i <= 143 then 8 else if i <= 255 then 9 else if i <= 279 then 7 else 8;
      }
    }

    // ----- the end of the stream -----

    lemma OpenStreamEnd()
      requires Inv() && state.StreamEnd?
      ensures Base() && 0 <= r.Pos() && Leads(goal, Complete(o.out, r.Pos(), true))
    {
      hide Inflater.Base, Inflater.Shape, Leads, TableBlocks;
      OpenEdge();
    }

    /** No byte past the last block was taken by an earlier call. */
    ghost predicate OnTime()
      reads r`taken
    {
      Good(goal) ==> 8 * r.taken <= Aligned(goal.value.pos)
    }

    lemma EndIs(pos: nat)
      requires Leads(goal, Complete(o.out, pos, true))
      ensures goal.Some? ==> goal.value.Complete? && o.out == goal.value.out && pos == goal.value.pos
    {
    }

    lemma WholeNow(pos: nat)
      requires goal.Some? ==> goal.value.Complete? && o.out == goal.value.out && pos == goal.value.pos
      requires r.Pos() == Aligned(pos)
      ensures Whole(r.Pos())
    {
      hide Aligned;
    }

    /** If bits are left, they are bytes of an earlier call. */
    lemma LookedTooFar()
      requires r.Valid() && OnTime() && r.numBits > 0 && r.inPos == 0
      requires Whole(r.Pos())
      ensures Stopped(Aborted)
    {
      hide Holds;
    }

    lemma EnterTrailer()
      requires Base() && state.Trailer? && zlib && r.numBits == 0 && counter <= 4 && 8 * counter <= r.Pos()
      requires Whole(r.Pos() - 8 * counter)
      requires TrailerIs(r.Bits(), r.Pos() - 8 * counter, counter, zAdler)
      ensures Inv()
    {
      hide Inflater.Base, Inflater.Inv, Inflater.Shape, TrailerIs, Aligned;
      EnterEdge();
    }

    lemma OpenTrailer()
      requires Inv() && state.Trailer?
      ensures Base() && zlib && r.numBits == 0 && counter <= 4 && 8 * counter <= r.Pos()
      ensures Whole(r.Pos() - 8 * counter)
      ensures TrailerIs(r.Bits(), r.Pos() - 8 * counter, counter, zAdler)
    {
      hide Inflater.Base, Inflater.Shape, TrailerIs, Aligned;
      OpenEdge();
    }

    lemma EnterFinished()
      requires Base() && state.Finished? && r.numBits == 0 && 0 <= r.Pos()
      requires Whole(r.Pos() - if zlib then 32 else 0)
      requires zlib ==> 32 <= r.Pos() && TrailerIs(r.Bits(), r.Pos() - 32, 4, zAdler)
      ensures Inv()
    {
      hide Inflater.Base, Inflater.Inv, Inflater.Shape, TrailerIs, Aligned;
      EnterEdge();
    }

    lemma OpenFinished()
      requires Inv() && state.Finished?
      ensures Base() && r.numBits == 0 && 0 <= r.Pos()
      ensures Whole(r.Pos() - if zlib then 32 else 0)
      ensures zlib ==> 32 <= r.Pos() && TrailerIs(r.Bits(), r.Pos() - 32, 4, zAdler)
    {
      hide Inflater.Base, Inflater.Shape, TrailerIs, Aligned;
      OpenEdge();
    }

    lemma TrailerStarts(pos: nat)
      requires pos <= |r.Bits()|
      ensures TrailerIs(r.Bits(), pos, 0, 1)
    {
    }

    /** Whole bytes are left, or none. */
    lemma NoOddBits()
      requires r.Valid() && 0 <= r.Pos() && r.Pos() % 8 == 0 && (r.inPos == 0 || r.numBits < 8)
      ensures r.numBits == 0 || r.inPos == 0
    {
      hide Holds;
    }

    /** Gives back what was read ahead. Bits of an earlier call must not be left; the assertion stops a decoder that
        has them. */
    method EndStream() returns (out: Outcome)
      requires Inv() && state.StreamEnd? && OnTime() && zAdler == 1
      modifies `state, `counter, r`inPos, r`numBits, r`bitBuf
      ensures out.Aborted? || Inv()
      ensures Stopped(out) && (out.Go? || out.Aborted?)
      ensures out.Go? ==> r.Avail() <= old(r.Avail()) && (state.Trailer? || state.Finished?)
    {
      hide *;
      OpenStreamEnd();
      BasePos();
      ghost var pos := r.Pos();
      EndIs(pos);
      AlignedHere(pos);
      var skipped := r.Take(r.numBits % 8);
      r.PutBack();
      BaseAgain();
      NoOddBits();
      WholeNow(pos);
      if r.numBits != 0 {
        LookedTooFar();
        return Aborted;
      }
      PosInside();
      TrailerStarts(r.Pos());
      if zlib {
        counter, state := 0, Trailer;
        assert r.Pos() - 8 * counter == r.Pos();
        EnterTrailer();
      } else {
        state := Finished;
        assert r.Pos() - (if zlib then 32 else 0) == r.Pos();
        EnterFinished();
      }
      GoStops();
      out := Go;
    }

    lemma TrailerShort()
      requires r.Valid() && state.Trailer? && zlib && r.numBits == 0 && counter < 4 && r.inPos == |r.src|
      requires Whole(r.Pos() - 8 * counter)
      ensures Stopped(NeedInput)
    {
      hide Holds;
    }

    lemma TrailerNext(start: nat, s: nat)
      requires TrailerIs(r.Bits(), start, counter, zAdler) && Field(r.Bits(), start + 8 * counter, 8) == Some(s)
      ensures TrailerIs(r.Bits(), start, counter + 1, zAdler * 256 % 0x1_0000_0000 + s)
    {
      ByteIsField(r.Bits(), start + 8 * counter, s);
    }

    /** Reads a byte of the checksum, or finishes. */
    method ReadTrailer() returns (out: Outcome)
      requires Inv() && state.Trailer?
      modifies `state, `counter, `zAdler, r`inPos, r`numBits, r`bitBuf
      ensures Inv() && Stopped(out) && (out.Go? || out.NeedInput?) && (state.Trailer? || state.Finished?)
      ensures out.Go? ==> Less(old(r.Avail()), old(o.outEnd - o.outPos), 2, 0)
    {
      hide *;
      OpenTrailer();
      BasePos();
      MoreRanks();
      ghost var start, a, b := r.Pos() - 8 * counter, r.Avail(), o.outEnd - o.outPos;
      if counter < 4 {
        TrailerAligned();
        var ok, s := AlignedByte();
        BasePos();
        if !ok {
          TrailerShort();
          EnterTrailer();
          return NeedInput;
        }
        TrailerNext(start, s);
        zAdler := zAdler * 256 % 0x1_0000_0000 + s;
        counter := counter + 1;
        BaseAgain();
        EnterTrailer();
        TookInput(a, b, 2, 0);
      } else {
        state := Finished;
        EnterFinished();
        Went(a, b, 2, 0, 1);
      }
      GoStops();
      out := Go;
    }

    lemma TrailerAligned()
      requires r.Valid() && r.numBits == 0
      ensures r.Pos() % 8 == 0
    {
      hide Holds;
    }

    // ----- running until something is missing -----

    /** Before the trailer: nothing past the blocks has been taken for good. */
    ghost predicate Early()
      reads r`taken, `state, `zAdler
    {
      state.Trailer? || state.Finished? || (OnTime() && zAdler == 1)
    }

    lemma StillEarly()
      requires OnTime() && zAdler == 1
      ensures Early()
    {
    }

    lemma EarlyMeans()
      requires Early()
      ensures state.Trailer? || state.Finished? || (OnTime() && zAdler == 1)
    {
    }

    lemma Late()
      requires state.Trailer? || state.Finished?
      ensures Early()
    {
    }

    lemma BodyStates()
      requires InBody()
      ensures state.Symbols? || state.LiteralOut? || state.LengthBits? || state.DistSymbol? || state.DistBits?
          || state.CopyStart? || state.Copying?
      ensures !state.Trailer? && !state.Finished?
    {
    }

    lemma HeaderStates()
      requires InHeader()
      ensures state.Counts? || state.ClSizes? || state.CodeLengths? || state.CodeRun?
      ensures !state.Trailer? && !state.Finished?
    {
    }

    lemma StoredStates()
      requires InStored()
      ensures state.StoredHead? || state.StoredBits? || state.StoredOut? || state.StoredCopy?
      ensures !state.Trailer? && !state.Finished?
    {
    }

    lemma EdgeStates()
      requires !InBody() && !InHeader() && !InStored()
      ensures state.Start? || state.ZHead0? || state.ZHead1? || state.BlockStart? || state.StreamEnd?
          || state.Trailer? || state.Finished? || state.Failed?
    {
    }

    lemma LessFrom(a: int, b: int, c: nat, e: nat)
      requires Less(a, b, c, 0)
      ensures Less(a, b, c, e)
    {
    }

    /** A step in the body of a block. */
    method StepBody() returns (out: Outcome)
      requires Inv() && InBody()
      modifies `state, `counter, `dist, `numExtra, `distFromStart, `filling, r`inPos, r`numBits, r`bitBuf, o`outPos
      modifies o`out, o.buf
      ensures Inv() && Stopped(out)
      ensures out.Go? ==> Less(old(r.Avail()), old(o.outEnd - o.outPos), old(Rank(state)), 0)
    {
      hide *;
      BodyStates();
      NoTokens();
      if state.Symbols? {
        if |r.src| - r.inPos >= 4 && o.outEnd - o.outPos >= 2 && !filling {
          out := FastSymbols();
          GoStops();
        } else {
          out := SlowSymbol();
        }
      } else if state.LiteralOut? {
        out := PutLiteral();
      } else if state.LengthBits? {
        out := ReadLength();
      } else if state.DistSymbol? {
        out := ReadDistSymbol();
      } else if state.DistBits? {
        out := ReadDist();
      } else if state.CopyStart? {
        out := StartCopy();
      } else {
        out := CopyOne();
      }
    }

    /** A step in the header of a dynamic block. */
    method StepHeader() returns (out: Outcome)
      requires Inv() && InHeader()
      modifies `state, `counter, `dist, `numExtra, `filling, `size0, `size1, `size2, `ll, `d, r`inPos, r`numBits
      modifies r`bitBuf
      modifies t0.sizes, t0.lookUp, t0.tree, t1.sizes, t1.lookUp, t1.tree, t2.sizes, t2.lookUp, t2.tree, lenCodes
      ensures Inv() && Stopped(out)
      ensures out.Go? ==> Less(old(r.Avail()), old(o.outEnd - o.outPos), old(Rank(state)), old(Left()))
    {
      hide *;
      HeaderStates();
      MoreRanks();
      ghost var a, b, e := r.Avail(), o.outEnd - o.outPos, Left();
      if state.Counts? {
        out := ReadCount();
        if out.Go? { LessFrom(a, b, 27, e); }
      } else if state.ClSizes? {
        out := ReadClSize();
        if out.Go? { LessFrom(a, b, 26, e); }
      } else if state.CodeRun? {
        out := ReadRun();
        if out.Go? { LessFrom(a, b, 25, e); }
      } else if counter < size0 + size1 {
        out := ReadLengthSymbol();
      } else {
        out := FinishLengths();
        if out.Go? { LessFrom(a, b, 24, e); }
      }
    }

    /** A step in a stored block. */
    method StepStored() returns (out: Outcome)
      requires Inv() && InStored()
      modifies `state, `counter, `dist, raw, r`inPos, r`numBits, r`bitBuf, o`outPos, o`out, o.buf
      ensures Inv() && Stopped(out)
      ensures out.Go? ==> Less(old(r.Avail()), old(o.outEnd - o.outPos), old(Rank(state)), 0)
    {
      hide *;
      StoredStates();
      MoreRanks();
      if state.StoredHead? {
        out := ReadStoredHead();
      } else if state.StoredBits? {
        out := ReadStoredBits();
      } else if state.StoredOut? {
        out := PutStored();
      } else {
        out := CopyStored();
      }
    }

    /** A step outside the blocks. */
    method StepEdge() returns (out: Outcome)
      requires Inv() && !InBody() && !InHeader() && !InStored() && Early()
      modifies `state, `counter, `final, `filling, `zhdr0, `zAdler, `ll, `d, t0.sizes, t0.lookUp, t0.tree, t1.sizes
      modifies t1.lookUp, t1.tree
      modifies r`inPos, r`numBits, r`bitBuf
      ensures (out.Aborted? || Inv()) && Stopped(out) && Early()
      ensures out.Go? ==> Less(old(r.Avail()), old(o.outEnd - o.outPos), old(Rank(state)), 0)
      ensures old(state.Finished?) ==> out.Ended? && state.Finished? && r.inPos == old(r.inPos)
    {
      hide *;
      EdgeStates();
      MoreRanks();
      EarlyMeans();
      ghost var a, b := r.Avail(), o.outEnd - o.outPos;
      if state.Start? {
        out := BeginStream();
        GoStops();
        StillEarly();
      } else if state.ZHead0? {
        out := ReadZHead0();
        StillEarly();
      } else if state.ZHead1? {
        out := ReadZHead1();
        StillEarly();
      } else if state.BlockStart? {
        out := ReadBlockStart();
        StillEarly();
      } else if state.StreamEnd? {
        out := EndStream();
        StillEarly();
        if out.Go? {
          EndOrder();
          Went(a, b, 3, 0, Rank(state));
        }
      } else if state.Trailer? {
        out := ReadTrailer();
        Late();
      } else {
        out := if state.Finished? then Ended else Bad;
        Over();
      }
    }

    lemma EndOrder()
      requires state.Trailer? || state.Finished?
      ensures Rank(state) < 3
    {
    }

    lemma Over()
      ensures state.Finished? ==> Stopped(Ended)
      ensures state.Failed? ==> Stopped(Bad)
    {
    }

    /** One step of the decoder. */
    method Step() returns (out: Outcome)
      requires Inv() && Early()
      modifies `state, `counter, `dist, `numExtra, `distFromStart, `filling, `size0, `size1, `size2, `final, `zhdr0
      modifies `zAdler, `ll, `d
      modifies r`inPos, r`numBits, r`bitBuf, o`outPos, o`out, o.buf, lenCodes, raw
      modifies t0.sizes, t0.lookUp, t0.tree, t1.sizes, t1.lookUp, t1.tree, t2.sizes, t2.lookUp, t2.tree
      ensures (out.Aborted? || Inv()) && Stopped(out) && Early()
      ensures out.Go? ==> Less(old(r.Avail()), old(o.outEnd - o.outPos), old(Rank(state)), old(Left()))
      ensures old(state.Finished?) ==> out.Ended? && StayedPut(old(r.inPos), old(o.outPos), old(o.out))
    {
      hide *;
      EarlyMeans();
      FinishedOutside();
      ghost var a, b, c, e := r.Avail(), o.outEnd - o.outPos, Rank(state), Left();
      ghost var i, p, bytes, ended := r.inPos, o.outPos, o.out, state.Finished?;
      if InBody() {
        BodyStates();
        out := StepBody();
        StillEarly();
      } else if InHeader() {
        HeaderStates();
        out := StepHeader();
        StillEarly();
        return;
      } else if InStored() {
        StoredStates();
        out := StepStored();
        StillEarly();
      } else {
        out := StepEdge();
        if ended {
          Stays(i, p, bytes);
        }
      }
      if out.Go? {
        LessFrom(a, b, c, e);
      }
    }

    lemma FinishedOutside()
      ensures state.Finished? ==> !InBody() && !InHeader() && !InStored()
    {
    }

    /** At the end of the stream nothing is read and nothing is put out. */
    ghost predicate StayedPut(i: nat, p: nat, bytes: seq<byte>)
      reads `state, r`inPos, o`outPos, o`out
    {
      state.Finished? && r.inPos == i && o.outPos == p && o.out == bytes
    }

    lemma Stays(i: nat, p: nat, bytes: seq<byte>)
      ensures state.Finished? && r.inPos == i && o.outPos == p && o.out == bytes <==> StayedPut(i, p, bytes)
    {
    }

    lemma LessMeans(a: int, b: int, c: nat, e: nat)
      requires Less(a, b, c, e)
      ensures || r.Avail() < a
              || (r.Avail() == a && o.outEnd - o.outPos < b)
              || (r.Avail() == a && o.outEnd - o.outPos == b && Rank(state) < c)
              || (r.Avail() == a && o.outEnd - o.outPos == b && Rank(state) == c && Left() < e)
    {
    }

    lemma InvPos()
      requires Inv()
      ensures 0 <= r.Avail() && o.outPos <= o.outEnd
    {
      hide BitReader.Valid, OutputWindow.Valid, Inflater.Shape, Inflater.Control;
      BasePos();
    }

    /** Decodes until input or room runs out, the stream ends or turns out not to be one. */
    method Run() returns (out: Outcome)
      requires Inv() && Early()
      modifies `state, `counter, `dist, `numExtra, `distFromStart, `filling, `size0, `size1, `size2, `final, `zhdr0
      modifies `zAdler, `ll, `d
      modifies r`inPos, r`numBits, r`bitBuf, o`outPos, o`out, o.buf, lenCodes, raw
      modifies t0.sizes, t0.lookUp, t0.tree, t1.sizes, t1.lookUp, t1.tree, t2.sizes, t2.lookUp, t2.tree
      ensures (out.Aborted? || Inv()) && Stopped(out) && Early() && !out.Go?
      ensures old(state.Finished?) ==> out.Ended? && StayedPut(old(r.inPos), old(o.outPos), old(o.out))
    {
      hide *;
      Stays(r.inPos, o.outPos, o.out);
      while true
        invariant Inv() && Early()
        invariant old(state.Finished?) ==> StayedPut(old(r.inPos), old(o.outPos), old(o.out))
        decreases r.Avail(), o.outEnd - o.outPos, Rank(state), Left()
      {
        InvPos();
        Stays(old(r.inPos), old(o.outPos), old(o.out));
        ghost var a, b, c, e := r.Avail(), o.outEnd - o.outPos, Rank(state), Left();
        out := Step();
        if !out.Go? {
          return;
        }
        LessMeans(a, b, c, e);
      }
    }

    // ----- one call -----

    /** Between calls: the output buffer of the next call is not known yet. */
    ghost predicate Ready()
      reads this, r, o, t0.lookUp, t0.tree, t1.lookUp, t1.tree, t2.lookUp, t2.tree, t2.sizes, lenCodes, raw
    {
      && Shape() && r.Valid() && r.Idle() && r.numBits <= 61 && 0 < o.modulus && Control() && Early() && SumOk()
    }

    /** The checksum is that of the output that went into it. */
    ghost predicate SumOk()
      reads `checkAdler, `summed
    {
      checkAdler < 0x1_0000_0000 && Adler32.Reduced(checkAdler) && checkAdler == Adler32.Adler(1, summed)
    }

    /** The output so far is in b, as far as it can be needed, and goes on at next. */
    ghost predicate Fits(b: seq<byte>, next: nat, size: nat)
      reads o`out
      requires 0 < o.modulus
    {
      && o.modulus == (if o.wrapping then next + size else SIZE_MAX) && History(b, o.out, o.modulus)
      && next % o.modulus == |o.out| % o.modulus && (!o.wrapping ==> next == |o.out|)
    }

    twostate lemma KeptBody()
      requires unchanged(this, t0.lookUp, t0.tree, t1.lookUp, t1.tree)
      requires 0 <= old(r.Pos()) == r.Pos() && old(r.numBits) == r.numBits && old(o.out) == o.out && 0 < o.modulus
      requires old(BodyControl())
      ensures BodyControl()
    {
      hide Inflater.Tables, Inflater.Rest, TableBody, Beyond, AtLenExtra, AtDist, AtDistExtra, AtCopy, Copy;
    }

    twostate lemma KeptCounts()
      requires unchanged(this) && 0 <= old(r.Pos()) == r.Pos() && old(o.out) == o.out && old(AtCounts())
      ensures AtCounts()
    {
      hide Inflater.CountsLead, BitReader.Pos;
    }

    twostate lemma KeptClSizes()
      requires unchanged(this, t2.sizes) && t2.sizes.Length == 19
      requires 0 <= old(r.Pos()) == r.Pos() && old(o.out) == o.out && old(AtClSizes())
      ensures AtClSizes()
    {
      assert old(t2.sizes[..]) == t2.sizes[..];
      hide Inflater.ClSizesOk, Inflater.ClLeads, BitReader.Pos;
    }

    twostate lemma KeptCodeLengths()
      requires unchanged(this, t2.lookUp, t2.tree, lenCodes) && lenCodes.Length == 457
      requires 0 <= old(r.Pos()) == r.Pos() && old(r.numBits) == r.numBits && old(o.out) == o.out
      requires old(AtCodeLengths())
      ensures AtCodeLengths()
    {
      assert counter <= 457 && old(lenCodes[..counter]) == lenCodes[..counter];
      hide Inflater.Rest, Inflater.LengthsRead, Beyond, AtLengths, CodeTable.Holds;
    }

    twostate lemma KeptCodeRun()
      requires unchanged(this, t2.lookUp, t2.tree, lenCodes) && lenCodes.Length == 457
      requires 0 <= old(r.Pos()) == r.Pos() && old(o.out) == o.out && old(AtCodeRun())
      ensures AtCodeRun()
    {
      assert counter <= 457 && old(lenCodes[..counter]) == lenCodes[..counter];
      hide Inflater.Rest, Inflater.LengthsRead, AtRun, CodeTable.Holds;
    }

    twostate lemma KeptHeader()
      requires unchanged(this, t2.sizes, t2.lookUp, t2.tree, lenCodes) && t2.sizes.Length == 19
      requires lenCodes.Length == 457
      requires 0 <= old(r.Pos()) == r.Pos() && old(r.numBits) == r.numBits && old(o.out) == o.out
      requires old(HeaderControl())
      ensures HeaderControl()
    {
      hide Inflater.AtCounts, Inflater.AtClSizes, Inflater.AtCodeLengths, Inflater.AtCodeRun;
      match state
      case Counts => KeptCounts();
      case ClSizes => KeptClSizes();
      case CodeLengths => KeptCodeLengths();
      case CodeRun => KeptCodeRun();
      case _ =>
    }

    twostate lemma KeptStored()
      requires unchanged(this, raw) && raw.Length == 4
      requires 0 <= old(r.Pos()) == r.Pos() && old(r.numBits) == r.numBits && old(o.out) == o.out
      requires old(StoredControl())
      ensures StoredControl()
    {
      hide Inflater.Rest, Inflater.RawRead, TableBytes, TableStored;
    }

    twostate lemma KeptEdge()
      requires unchanged(this)
      requires 0 <= old(r.Pos()) == r.Pos() && old(r.numBits) == r.numBits && old(o.out) == o.out && old(EdgeControl())
      ensures EdgeControl()
    {
      hide Leads, TableBlocks, TrailerIs, Aligned, Field;
    }

    /** Gives back what was read ahead in this call. */
    method GiveBack()
      requires Inv() && (Full() || state.Failed? || state.Finished?)
      modifies r`inPos, r`numBits, r`bitBuf
      ensures Inv() && r.Pos() == old(r.Pos()) && (r.inPos == 0 || r.numBits < 8)
    {
      hide *;
      FullStates();
      BasePosAgain();
      if state.LiteralOut? {
        OpenLiteralOut();
        r.PutBack();
        BaseAgain();
        EnterLiteralOut();
      } else if state.Copying? {
        OpenCopying();
        r.PutBack();
        BaseAgain();
        EnterCopying();
      } else if state.StoredOut? {
        OpenStoredOut();
        r.PutBack();
        BaseAgain();
        EnterStoredOut();
      } else if state.StoredCopy? {
        OpenStoredCopy();
        r.PutBack();
        BaseAgain();
        EnterStoredCopy();
      } else if state.Finished? {
        OpenFinished();
        r.PutBack();
        BaseAgain();
        EnterFinished();
      } else {
        OpenFailed();
        r.PutBack();
        BaseAgain();
        EnterFailed();
      }
    }

    lemma FullStates()
      requires Full() || state.Failed? || state.Finished?
      ensures state.LiteralOut? || state.Copying? || state.StoredOut? || state.StoredCopy? || state.Failed?
          || state.Finished?
    {
    }

    lemma BasePosAgain()
      requires Inv()
      ensures Base() && 0 <= r.Pos() && 0 < o.modulus && Shape() && r.Valid() && o.Valid() && r.numBits <= 61
      ensures o.buf !in Arrays()
    {
      hide BitReader.Valid, OutputWindow.Valid, Inflater.Shape, Inflater.Control;
      BasePos();
    }

    lemma OpenFailed()
      requires Inv() && state.Failed?
      ensures Fails(goal)
    {
      hide Inflater.Base, Inflater.Shape;
      OpenEdge();
    }

    /** Starts a call: the coroutine finds everything as it left it. */
    method OpenCall(piece: seq<byte>, b: array<byte>, next: nat, size: nat)
      requires Ready() && r.Follows(piece) && b !in Arrays() && next + size <= b.Length < SIZE_MAX
      requires Fits(b[..], next, size)
      modifies r`src, o
      ensures Inv() && Early() && r.src == piece && r.inPos == 0
      ensures o.buf == b && o.outPos == next == o.start && o.outEnd == next + size && o.out == old(o.out) == o.before
      ensures o.first == b[..]
    {
      ReadyIs();
      hide BitReader.Valid, OutputWindow.Valid, Inflater.Early, Inflater.Control, Inflater.BodyControl;
      hide Inflater.HeaderControl, Inflater.StoredControl, Inflater.EdgeControl, Inflater.Ready, History;
      hide Inflater.Shape;
      r.Feed(piece);
      o.Open(b, next, size);
      BaseAgain();
      KeptControl();
    }

    lemma ReadyIs()
      requires Ready()
      ensures Shape() && r.Valid() && r.Idle() && r.numBits <= 61 && 0 <= r.Pos() && 0 < o.modulus && Control()
      ensures Early() && SumOk()
    {
      hide Inflater.Control, Inflater.Early, Inflater.SumOk, Inflater.Shape;
    }

    twostate lemma KeptControl()
      requires unchanged(this, t0.lookUp, t0.tree, t1.lookUp, t1.tree, t2.sizes, t2.lookUp, t2.tree, lenCodes, raw)
      requires Shape() && 0 <= old(r.Pos()) == r.Pos() && old(r.numBits) == r.numBits && old(o.out) == o.out
      requires 0 < o.modulus && old(Control())
      ensures Control()
    {
      hide Inflater.BodyControl, Inflater.HeaderControl, Inflater.StoredControl, Inflater.EdgeControl;
      KeptBody();
      KeptHeader();
      KeptStored();
      KeptEdge();
    }

    /** No byte past the last block has been taken. */
    ghost predicate InTime()
      reads r
    {
      Good(goal) ==> 8 * (r.taken + r.inPos) <= Aligned(goal.value.pos)
    }

    lemma InTimeForInput()
      requires Stopped(NeedInput)
      ensures state.Trailer? || InTime()
      ensures r.inPos == |r.src| && Promises(goal, o.out) && (Good(goal) ==> 8 * (r.taken + r.inPos) < StreamBits())
      ensures r.taken + r.inPos == |r.stream| ==> TooShort()
    {
    }

    lemma RoomMissing()
      requires Stopped(NeedOutput)
      ensures Full() && o.outPos == o.outEnd && Reaches(goal, r.Pos())
      ensures Promises(goal, o.out) && Wants(goal, o.out)
      ensures !state.Trailer? && !state.Finished?
    {
    }

    lemma InTimeForOutput()
      requires r.Valid() && (r.inPos == 0 || r.numBits < 8) && Reaches(goal, r.Pos()) && OnTime()
      ensures InTime()
    {
      hide Holds;
    }

    lemma StopIs(out: Outcome)
      requires Stopped(out)
      ensures out.Bad? ==> state.Failed?
      ensures out.Ended? ==> state.Finished?
      ensures out.Aborted? ==> !Good(goal) && Overtaken(r.taken)
    {
    }

    lemma NothingPromised()
      requires Fails(goal)
      ensures Promises(goal, o.out)
    {
    }

    lemma InTimeForFailed()
      requires Fails(goal)
      ensures InTime()
    {
    }

    lemma ReadInside()
      requires r.Valid()
      ensures r.inPos <= |r.src|
    {
    }

    /** Ends a call: the input that was not read is the caller's again. */
    method CloseCall()
      requires Inv() && SumOk() && (state.Trailer? || state.Finished? || (InTime() && zAdler == 1))
      modifies r
      ensures Ready() && r.taken == old(r.taken + r.inPos) && r.Pos() == old(r.Pos()) && r.numBits == old(r.numBits)
    {
      Opened();
      BasePosAgain();
      hide BitReader.Valid, OutputWindow.Valid, Inflater.Inv, Inflater.Base, Inflater.Control, Inflater.BodyControl;
      hide Inflater.HeaderControl, Inflater.StoredControl, Inflater.EdgeControl, Inflater.SumOk, Inflater.Shape;
      r.Settle();
      KeptControl();
      assert state.Trailer? || state.Finished? || OnTime();
    }

    /** Adds output to the checksum. */
    method AddSum(bytes: seq<byte>)
      requires SumOk()
      modifies `checkAdler, `summed
      ensures SumOk() && summed == old(summed) + bytes
    {
      ghost var before := checkAdler;
      checkAdler := Adler32.Adler32(checkAdler, bytes);
      SumMore(before, bytes);
      summed := summed + bytes;
    }

    lemma SumMore(a: nat, bytes: seq<byte>)
      requires a == Adler32.Adler(1, summed)
      ensures Adler32.Adler(a, bytes) == Adler32.Adler(1, summed + bytes)
      ensures Adler32.Reduced(Adler32.Adler(1, summed + bytes)) && Adler32.Adler(1, summed + bytes) < 0x1_0000_0000
    {
      hide Adler32.Adler;
      Adler32.AdlerAppend(1, summed, bytes);
      Adler32.AdlerReduced(1, summed + bytes);
    }

    lemma SumIs()
      requires SumOk()
      ensures checkAdler == Adler32.Adler(1, summed)
    {
    }

    lemma WholeEnds(pos: int)
      requires Whole(pos - if zlib then 32 else 0)
      ensures EndedAt(pos) && Promises(goal, o.out)
    {
      hide Aligned;
    }

    lemma FinishedMeans()
      requires Inv() && state.Finished?
      ensures r.numBits == 0 && 0 <= r.Pos() == 8 * (r.taken + r.inPos)
      ensures EndedAt(r.Pos()) && Promises(goal, o.out)
      ensures zlib ==> 32 <= r.Pos() <= |r.Bits()| && zAdler == BigEndian(r.Bits(), r.Pos() - 32)
    {
      hide TrailerIs, BitReader.Valid, Inflater.Inv, Inflater.Base, BigEndian, Inflater.Whole, Inflater.EndedAt;
      OpenFinished();
      BasePosAgain();
      PosInside();
      WholeEnds(r.Pos());
      if zlib {
        TrailerWhole(r.Bits(), r.Pos() - 32, zAdler);
      }
    }

    /** The answer to the caller. Input that was read ahead is given back, unless more of it is needed. */
    method Answer(out: Outcome, more: bool) returns (status: Status)
      requires Inv() && Early() && Stopped(out) && !out.Go? && !out.Aborted?
      modifies r`inPos, r`numBits, r`bitBuf
      ensures Inv() && (state.Trailer? || state.Finished? || (InTime() && zAdler == 1))
      ensures status.NeedsMoreInput? || status.CannotMakeProgress? ==>
        (more <==> status.NeedsMoreInput?) && r.inPos == |r.src|
            && (Good(goal) ==> 8 * (r.taken + r.inPos) < StreamBits())
            && (r.taken + r.inPos == |r.stream| ==> TooShort())
      ensures status.HasMoreOutput? ==> o.outPos == o.outEnd && Wants(goal, o.out)
      ensures Promises(goal, o.out)
      ensures status.FailedForGood? ==> Fails(goal)
      ensures status.Done? ==>
        && 0 <= r.Pos() == 8 * (r.taken + r.inPos) && EndedAt(r.Pos())
        && (zlib ==> 32 <= r.Pos() <= |r.Bits()| && zAdler == BigEndian(r.Bits(), r.Pos() - 32))
      ensures status.Done? ==> state.Finished?
      ensures out.Ended? ==> status.Done? && r.inPos == old(r.inPos)
      ensures !status.BadParam? && !status.AdlerMismatch? && !status.AssertFailed?
    {
      hide *;
      EarlyMeans();
      BasePosAgain();
      StopIs(out);
      if out.NeedInput? {
        InTimeForInput();
        status := if more then NeedsMoreInput else CannotMakeProgress;
      } else if out.NeedOutput? {
        RoomMissing();
        GiveBack();
        BasePosAgain();
        InTimeForOutput();
        status := HasMoreOutput;
      } else if out.Ended? {
        FinishedMeans();
        GiveBack();
        FinishedMeans();
        status := Done;
      } else {
        OpenFailed();
        GiveBack();
        NothingPromised();
        InTimeForFailed();
        status := FailedForGood;
      }
    }

    lemma Delivered(b: array<byte>, next: nat, size: nat, was: seq<byte>)
      requires o.Valid() && b == o.buf && o.first == was && next == o.start && o.outEnd == next + size
      requires o.modulus == if o.wrapping then next + size else SIZE_MAX
      ensures next <= o.outPos <= next + size <= b.Length == |was| && o.out == o.before + b[next..o.outPos]
      ensures Within(was, b[..], next, o.outPos) && Fits(b[..], o.outPos, next + size - o.outPos)
    {
      hide OutputWindow.Valid, History;
      o.WroteMeans();
      o.Settled();
    }

    lemma FitsModulus(b: seq<byte>, next: nat, size: nat)
      requires 0 < o.modulus && Fits(b, next, size)
      ensures o.modulus == if o.wrapping then next + size else SIZE_MAX
    {
    }

    /** Decodes into the buffer. */
    method Serve(piece: seq<byte>, b: array<byte>, next: nat, size: nat) returns (out: Outcome)
      requires Ready() && r.Follows(piece) && b !in Arrays() && next + size <= b.Length < SIZE_MAX && 0 < o.modulus
      requires Fits(b[..], next, size)
      modifies `state, `counter, `dist, `numExtra, `distFromStart, `filling, `size0, `size1, `size2, `final, `zhdr0
      modifies `zAdler, `ll, `d
      modifies r`src, r`inPos, r`numBits, r`bitBuf, o, b, lenCodes, raw
      modifies t0.sizes, t0.lookUp, t0.tree, t1.sizes, t1.lookUp, t1.tree, t2.sizes, t2.lookUp, t2.tree
      ensures !out.Go? && (out.Aborted? ==> !Good(goal) && Overtaken(old(r.taken)))
      ensures old(state.Finished?) ==> out.Ended? && o.outPos == next && r.inPos == 0
      ensures !out.Aborted? ==>
        && Inv() && Early() && Stopped(out) && SumOk() && r.src == piece
        && o.outEnd == next + size && next <= o.outPos <= next + size <= b.Length
            && o.out == old(o.out) + b[next..o.outPos]
        && Within(old(b[..]), b[..], next, o.outPos) && Fits(b[..], o.outPos, next + size - o.outPos)
    {
      hide *;
      ReadyIs();
      FitsModulus(b[..], next, size);
      OpenCall(piece, b, next, size);
      ghost var was := b[..];
      ghost var before := o.out;
      out := Run();
      Stays(0, next, before);
      StopIs(out);
      if !out.Aborted? {
        BasePosAgain();
        Delivered(b, next, size, was);
      }
    }

    /** The checksum of the output is the one read before the end of the bytes taken. */
    ghost predicate ChecksumMet()
      reads `summed, r`taken
    {
      zlib && 32 <= 8 * r.taken <= |r.Bits()| ==> Adler32.Adler(1, summed) == BigEndian(r.Bits(), 8 * r.taken - 32)
    }

    lemma MetMeans()
      ensures zlib && 32 <= 8 * r.taken <= |r.Bits()| ==>
        (ChecksumMet() <==> Adler32.Adler(1, summed) == BigEndian(r.Bits(), 8 * r.taken - 32))
      ensures !zlib ==> ChecksumMet()
    {
      hide BigEndian, Adler32.Adler;
    }

    /** Answers, sums the new output and lets go of the input. */
    method Leave(out: Outcome, added: seq<byte>, more: bool) returns (status: Status, consumed: nat)
      requires Inv() && Early() && Stopped(out) && SumOk() && !out.Go? && !out.Aborted?
      modifies r, `checkAdler, `summed
      ensures Ready() && consumed <= |old(r.src)| && r.taken == old(r.taken) + consumed
      ensures !status.BadParam? && !status.AssertFailed? && (status.FailedForGood? ==> Fails(goal))
      ensures Promises(goal, o.out)
      ensures status.Done? || status.AdlerMismatch? ==> state.Finished?
      ensures out.Ended? ==> (status.Done? || status.AdlerMismatch?) && consumed == old(r.inPos)
      ensures summed == old(summed) + if zlib && !status.CannotMakeProgress? && !status.FailedForGood? then added
          else []
      ensures status.NeedsMoreInput? || status.CannotMakeProgress? ==>
        (more <==> status.NeedsMoreInput?) && consumed == |old(r.src)| && (Good(goal) ==> 8 * r.taken < StreamBits())
        && (r.taken == |r.stream| ==> TooShort())
      ensures status.HasMoreOutput? ==> o.outPos == o.outEnd && Wants(goal, o.out)
      ensures status.Done? || status.AdlerMismatch? ==>
        && EndedAt(8 * r.taken) && (zlib ==> 32 <= 8 * r.taken <= |r.Bits()|) && (status.Done? <==> ChecksumMet())
      ensures out.Ended? && added == [] && old(r.inPos) == 0 ==> (status.Done? <==> old(ChecksumMet()))
    {
      hide *;
      MetMeans();
      BasePosAgain();
      ReadInside();
      status := Answer(out, more);
      BasePosAgain();
      ReadInside();
      consumed := r.inPos;
      if zlib && !status.CannotMakeProgress? && !status.FailedForGood? {
        AddSum(added);
        SumIs();
        if status.Done? && checkAdler != zAdler {
          status := AdlerMismatch;
        }
      }
      CloseCall();
      MetMeans();
      assert old(summed) + [] == old(summed);
    }

    /**
     Decodes a piece of the stream into size bytes of b from next on. The goal is what the tables make of the whole
     stream, whatever the stream is, except that nothing is said of a ring that is read before it was written. Whatever
     the pieces and the room for output are: the output is always a prefix of the goal's, a call fails only if the goal
     is refused, the decoder asks for input only if it needs it and for room only if it has output, and it is done
     exactly at the goal's end. With a zlib header it is done only if the checksum that follows is that of the output
     of all calls but those that could not go on for want of input; every later call gives the same answer.
     */
    method Decompress(piece: seq<byte>, b: array<byte>, next: nat, size: nat, more: bool)
      returns (status: Status, consumed: nat, produced: nat)
      requires Ready() && r.Follows(piece) && b !in Arrays() && next + size <= b.Length < SIZE_MAX && 0 < o.modulus
      requires !o.wrapping || PowerOfTwo(next + size) ==> Fits(b[..], next, size)
      modifies this, r, o, b, lenCodes, raw, t0.sizes, t0.lookUp, t0.tree, t1.sizes, t1.lookUp, t1.tree, t2.sizes
      modifies t2.lookUp, t2.tree
      ensures status.BadParam? <==> o.wrapping && !PowerOfTwo(next + size)
      ensures status.BadParam? ==> consumed == 0 == produced && unchanged(this, r, o, b)
      ensures status.AssertFailed? ==> !Good(goal) && Overtaken(old(r.taken))
      ensures status.FailedForGood? ==> Fails(goal)
      ensures !status.BadParam? && !status.AssertFailed? ==>
        && Ready() && consumed <= |piece| && r.taken == old(r.taken) + consumed
        && produced <= size && o.out == old(o.out) + b[next..next + produced]
        && Within(old(b[..]), b[..], next, next + produced) && Fits(b[..], next + produced, size - produced)
        && Promises(goal, o.out)
        && summed == old(summed) + if zlib && !status.CannotMakeProgress? && !status.FailedForGood?
            then b[next..next + produced] else []
      ensures status.NeedsMoreInput? || status.CannotMakeProgress? ==>
        (more <==> status.NeedsMoreInput?) && consumed == |piece| && (Good(goal) ==> 8 * r.taken < StreamBits())
        && (r.taken == |r.stream| ==> TooShort())
      ensures status.HasMoreOutput? ==> produced == size && Wants(goal, o.out)
      ensures status.Done? || status.AdlerMismatch? ==>
        && state.Finished? && EndedAt(8 * r.taken) && (zlib ==> 32 <= 8 * r.taken <= |r.Bits()|)
        && (status.Done? <==> ChecksumMet())
      ensures old(state.Finished?) && !status.BadParam? ==>
        consumed == 0 == produced && (if old(ChecksumMet()) then status.Done? else status.AdlerMismatch?)
    {
      hide *;
      consumed, produced := 0, 0;
      if o.wrapping && !PowerOfTwo(next + size) {
        return BadParam, 0, 0;
      }
      var out := Serve(piece, b, next, size);
      if out.Aborted? {
        return AssertFailed, 0, 0;
      }
      produced := o.outPos - next;
      status, consumed := Leave(out, b[next..next + produced], more);
    }
  }

  /** Between the two, only b[from..to] has changed. */
  predicate Within(before: seq<byte>, after: seq<byte>, from: nat, to: nat) {
    from <= to <= |before| == |after| && after[..from] == before[..from] && after[to..] == before[to..]
  }

  /** The next byte boundary after a position with n bits left before a boundary. */
  lemma AlignedIs(pos: nat, n: nat, bytes: nat)
    requires pos + n == 8 * bytes
    ensures pos + n % 8 == Aligned(pos) && Aligned(pos) % 8 == 0
  {
  }

  lemma CopyStep(o: seq<byte>, n: nat, dist: nat)
    requires 1 <= dist <= |o|
    ensures Copy(o, n + 1, dist) == Copy(o + [o[|o| - dist]], n, dist)
  {
  }

  /** The number a is what `counter` bytes from pos on make of 1, each shifted in from below. */
  ghost predicate TrailerIs(bits: seq<bool>, pos: nat, counter: nat, a: nat) {
    pos + 8 * counter <= |bits| && a == Shifted(bits, pos, counter)
  }

  ghost function Shifted(bits: seq<bool>, pos: nat, counter: nat): (a: nat)
    requires pos + 8 * counter <= |bits|
    ensures a < 0x1_0000_0000
  {
    if counter == 0 then 1
    else Shifted(bits, pos, counter - 1) * 256 % 0x1_0000_0000 + ByteAt(bits, pos + 8 * (counter - 1))
  }

  /** Four bytes, the first being the most significant. */
  ghost function BigEndian(bits: seq<bool>, pos: nat): nat
    requires pos + 32 <= |bits|
  {
    0x100_0000 * ByteAt(bits, pos) + 0x1_0000 * ByteAt(bits, pos + 8) + 256 * ByteAt(bits, pos + 16)
        + ByteAt(bits, pos + 24)
  }

  /** After four bytes nothing is left of the 1. */
  lemma TrailerWhole(bits: seq<bool>, pos: nat, a: nat)
    requires TrailerIs(bits, pos, 4, a)
    ensures a == BigEndian(bits, pos)
  {
    hide ByteAt;
    var b0, b1, b2: nat := ByteAt(bits, pos), ByteAt(bits, pos + 8), ByteAt(bits, pos + 16);
    assert Shifted(bits, pos, 1) == 256 + b0;
    assert Shifted(bits, pos, 2) == 0x1_0000 + 256 * b0 + b1;
    assert Shifted(bits, pos, 3) == 0x100_0000 + 0x1_0000 * b0 + 256 * b1 + b2;
  }
}
