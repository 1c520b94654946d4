/** The decoder's tables for one code: ten bits are looked up at once, longer codes go on in a tree. */
module DecodeTable {
  import opened Bits
  import opened CanonicalCode
  import opened Deflate
  import opened HuffmanTable
  import opened TableDecoding

  type i16 = x: int | -32768 <= x < 32768

  const LOOKUP := 1024

  // ----- paths -----

  /** The code of s goes on after path. */
  ghost predicate Through(lens: seq<nat>, s: nat, path: seq<bool>) {
    Used(lens, s) && |path| < lens[s] && path <= CodeBits(lens, s)
  }

  /** The code of s, one of the symbols below k, is a beginning of path. */
  ghost predicate Ends(lens: seq<nat>, k: nat, s: nat, path: seq<bool>) {
    s < k && Used(lens, s) && CodeBits(lens, s) <= path
  }

  ghost predicate HasEnd(lens: seq<nat>, k: nat, path: seq<bool>) {
    exists s: nat :: Ends(lens, k, s, path)
  }

  /** Where the tables branch: after ten bits or more of the code of a symbol below k, or on the way that is being
      made. */
  ghost predicate Inner(lens: seq<nat>, k: nat, way: seq<bool>, path: seq<bool>) {
    10 <= |path| && (path <= way || exists s: nat :: s < k && Through(lens, s, path))
  }

  /** No code ends before or where another goes on. */
  lemma EndsOrThrough(lens: seq<nat>, k: nat, s: nat, t: nat, path: seq<bool>)
    requires Feasible(lens) && Ends(lens, k, s, path)
    ensures !Through(lens, t, path)
  {
    if Through(lens, t, path) {
      var c := CodeBits(lens, t);
      assert CodeBits(lens, s) <= c;
      PrefixFree(lens, s, t, c);
      assert false;
    }
  }

  // ----- what the tables hold -----

  /** Nodes are numbered as they are made; the references in the tables are negative and odd. */
  function Ref(j: nat): int {
    -1 - 2 * j
  }

  /** The value that stands for a symbol: with its code's length in the lookup table, alone in the tree. */
  function Leaf(lens: seq<nat>, s: nat, short: bool): int
    requires s < |lens|
  {
    if short then 512 * lens[s] + s else s
  }

  ghost predicate HasNode(nodes: seq<seq<bool>>, path: seq<bool>, v: int) {
    exists j :: 0 <= j < |nodes| && nodes[j] == path && v == Ref(j)
  }

  ghost predicate LeafOk(lens: seq<nat>, k: nat, path: seq<bool>, v: int, short: bool) {
    forall s: nat :: Ends(lens, k, s, path) ==> v == Leaf(lens, s, short)
  }

  /** The entry v for the bits path: a node, a symbol below k whose code ends there, or nothing. */
  ghost predicate EntryOk(lens: seq<nat>, k: nat, way: seq<bool>, nodes: seq<seq<bool>>, path: seq<bool>, v: int,
                          short: bool)
  {
    && (v < 0 ==> HasNode(nodes, path, v))
    && (Inner(lens, k, way, path) ==> v < 0)
    && LeafOk(lens, k, path, v, short)
    && (v > 0 ==> HasEnd(lens, k, path))
  }

  ghost predicate NodesOk(lens: seq<nat>, k: nat, way: seq<bool>, nodes: seq<seq<bool>>) {
    && (forall i, j :: 0 <= i < j < |nodes| ==> nodes[i] != nodes[j])
    && (forall j :: 0 <= j < |nodes| ==> Inner(lens, k, way, nodes[j]))
  }

  ghost predicate LookOk(lens: seq<nat>, k: nat, way: seq<bool>, nodes: seq<seq<bool>>, lookUp: seq<i16>) {
    && |lookUp| == LOOKUP
    && forall i :: 0 <= i < LOOKUP ==> EntryOk(lens, k, way, nodes, NatBits(i, 10), lookUp[i], true)
  }

  ghost predicate TreeOk(lens: seq<nat>, k: nat, way: seq<bool>, nodes: seq<seq<bool>>, tree: seq<i16>) {
    && 2 * |nodes| <= |tree|
    && (forall j :: 0 <= j < |nodes| ==> PairOk(lens, k, way, nodes, nodes[j], tree[2 * j], tree[2 * j + 1]))
    && (forall i :: 2 * |nodes| <= i < |tree| ==> tree[i] == 0)
  }

  ghost predicate PairOk(lens: seq<nat>, k: nat, way: seq<bool>, nodes: seq<seq<bool>>, path: seq<bool>, v0: int,
                         v1: int)
  {
    EntryOk(lens, k, way, nodes, path + [false], v0, false) && EntryOk(lens, k, way, nodes, path + [true], v1, false)
  }

  /** The tables for the symbols below k, while a way is being made for the next. */
  ghost predicate TablesOk(lens: seq<nat>, k: nat, way: seq<bool>, nodes: seq<seq<bool>>, lookUp: seq<i16>,
                           tree: seq<i16>)
  {
    NodesOk(lens, k, way, nodes) && LookOk(lens, k, way, nodes, lookUp) && TreeOk(lens, k, way, nodes, tree)
  }

  // ----- looking up -----

  /** The bits that a bit buffer starts with. */
  lemma BufferPath(buf: nat)
    ensures Low(buf, 10) < LOOKUP && NatBits(Low(buf, 10), 10) == NatBits(buf, 15)[..10]
  {
    Pow2Values();
    LowBound(buf, 10);
    NatBitsLow(buf, 10);
    NatBitsTake(buf, 10, 5);
  }

  /** The tables of a whole code. */
  ghost predicate TablesFor(lens: seq<nat>, lookUp: seq<i16>, tree: seq<i16>) {
    exists nodes :: TablesOk(lens, |lens|, [], nodes, lookUp, tree)
  }

  /** What the bits say: the symbol whose code they start with, and its length. */
  ghost predicate Decoded(lens: seq<nat>, bits: seq<bool>, sym: nat, len: nat) {
    forall s: nat :: Used(lens, s) && CodeBits(lens, s) <= bits ==> sym == s && len == lens[s]
  }

  /** Where a lookup is: n bits have led to the entry v. */
  ghost predicate Reached(lens: seq<nat>, nodes: seq<seq<bool>>, bits: seq<bool>, n: nat, v: int) {
    && |bits| == 15 && 10 <= n <= 15 && EntryOk(lens, |lens|, [], nodes, bits[..n], v, n == 10)
    && forall s: nat :: Used(lens, s) && CodeBits(lens, s) <= bits ==> n == 10 || n <= lens[s]
  }

  lemma LookedUp(lens: seq<nat>, nodes: seq<seq<bool>>, lookUp: seq<i16>, tree: seq<i16>, buf: nat)
    requires TablesOk(lens, |lens|, [], nodes, lookUp, tree)
    ensures Low(buf, 10) < |lookUp| && Reached(lens, nodes, NatBits(buf, 15), 10, lookUp[Low(buf, 10)])
  {
    hide EntryOk, NatBits, Low, TreeOk, NodesOk;
    BufferPath(buf);
  }

  /** At a node every code that fits is longer. */
  lemma LongerThan(lens: seq<nat>, bits: seq<bool>, n: nat, s: nat)
    requires Feasible(lens) && n <= |bits| && Inner(lens, |lens|, [], bits[..n]) && Used(lens, s)
    requires CodeBits(lens, s) <= bits
    ensures n < lens[s]
  {
    var t: nat :| t < |lens| && Through(lens, t, bits[..n]);
    if lens[s] <= n {
      assert CodeBits(lens, s) <= bits[..n];
      EndsOrThrough(lens, |lens|, s, t, bits[..n]);
    }
  }

  lemma NodeShort(lens: seq<nat>, path: seq<bool>)
    requires Inner(lens, |lens|, [], path) && LengthsOk(lens)
    ensures 10 <= |path| < 15
  {
  }

  /** The pair of entries a negative entry refers to. */
  lemma PairOf(lens: seq<nat>, nodes: seq<seq<bool>>, tree: seq<i16>, path: seq<bool>, v: int)
    requires NodesOk(lens, |lens|, [], nodes) && TreeOk(lens, |lens|, [], nodes, tree) && HasNode(nodes, path, v)
    ensures Inner(lens, |lens|, [], path) && 0 <= -v - 1 && -v < |tree|
    ensures PairOk(lens, |lens|, [], nodes, path, tree[-v - 1], tree[-v])
  {
    hide Inner, PairOk;
    var j :| 0 <= j < |nodes| && nodes[j] == path && v == Ref(j);
  }

  /** A negative entry leads on. */
  lemma GoOn(lens: seq<nat>, nodes: seq<seq<bool>>, lookUp: seq<i16>, tree: seq<i16>, bits: seq<bool>, n: nat, v: int)
    requires TablesOk(lens, |lens|, [], nodes, lookUp, tree) && Reached(lens, nodes, bits, n, v) && v < 0
    requires Feasible(lens)
    ensures n < 15 && 0 <= -v - 1 && -v < |tree|
    ensures Reached(lens, nodes, bits, n + 1, tree[-v - 1 + if bits[n] then 1 else 0])
  {
    hide Inner, LeafOk, HasEnd, HasNode, Kraft;
    PairOf(lens, nodes, tree, bits[..n], v);
    NodeShort(lens, bits[..n]);
    assert bits[..n + 1] == bits[..n] + [bits[n]];
    forall s: nat | Used(lens, s) && CodeBits(lens, s) <= bits ensures n + 1 <= lens[s] {
      LongerThan(lens, bits, n, s);
    }
  }

  /** An entry that is no node says which symbol it is. */
  lemma Arrived(lens: seq<nat>, nodes: seq<seq<bool>>, bits: seq<bool>, n: nat, v: int)
    requires Reached(lens, nodes, bits, n, v) && v >= 0 && LengthsOk(lens) && |lens| <= 288
    ensures n == 10 ==> (v / 512 <= 15 && v % 512 < 288 && Decoded(lens, bits, v % 512, v / 512)
        && (v % 512 > 0 ==> v / 512 > 0 && v % 512 < |lens|))
    ensures n > 10 ==> v < 288 && Decoded(lens, bits, v, n) && (v > 0 ==> v < |lens|)
  {
    var path := bits[..n];
    ArrivedBound(lens, path, v, n == 10);
    forall s: nat | Used(lens, s) && CodeBits(lens, s) <= bits
      ensures lens[s] <= n && v == Leaf(lens, s, n == 10)
    {
      EndsOrGoesOn(lens, bits, n, s);
      NoNode(lens, path, v, s);
    }
  }

  lemma EndsOrGoesOn(lens: seq<nat>, bits: seq<bool>, n: nat, s: nat)
    requires n <= |bits| && Used(lens, s) && CodeBits(lens, s) <= bits
    ensures if lens[s] <= n then Ends(lens, |lens|, s, bits[..n]) else Through(lens, s, bits[..n])
  {
  }

  lemma NoNode(lens: seq<nat>, path: seq<bool>, v: int, s: nat)
    requires (Inner(lens, |lens|, [], path) ==> v < 0) && v >= 0 && 10 <= |path|
    ensures s < |lens| ==> !Through(lens, s, path)
  {
  }

  lemma ArrivedBound(lens: seq<nat>, path: seq<bool>, v: int, short: bool)
    requires LeafOk(lens, |lens|, path, v, short) && (v > 0 ==> HasEnd(lens, |lens|, path)) && v >= 0 && LengthsOk(lens)
    requires |lens| <= 288
    ensures short ==> v / 512 <= 15 && v % 512 < 288 && (v % 512 > 0 ==> v / 512 > 0 && v % 512 < |lens|)
    ensures !short ==> v < 288 && (v > 0 ==> v < |lens|)
  {
    if v > 0 {
      var s: nat :| Ends(lens, |lens|, s, path);
      assert v == Leaf(lens, s, short);
      LeafValue(lens[s], s);
    }
  }

  lemma LeafValue(len: nat, s: nat)
    requires s < 512
    ensures (512 * len + s) / 512 == len && (512 * len + s) % 512 == s
  {
  }

  /** Where a walk through the tree from entry v ends: the entry that is no node, and how many bits led there. */
  function Walk(tree: seq<i16>, v: int, buf: nat, n: nat): (r: (int, nat))
    ensures n <= r.1
    decreases 15 - n
  {
    if v >= 0 || n >= 15 || -v >= |tree| then (v, n)
    else Walk(tree, tree[-v - 1 + if Shr(buf, n) % 2 == 1 then 1 else 0], buf, n + 1)
  }

  /** How many bits a lookup takes. */
  function TableLength(lookUp: seq<i16>, tree: seq<i16>, buf: nat): nat {
    if Low(buf, 10) >= |lookUp| then 0
    else
      var v := lookUp[Low(buf, 10)];
      if v >= 0 then v / 512 else Walk(tree, v, buf, 10).1
  }

  /** A lookup with these fifteen bits takes the symbol and the bits. */
  ghost predicate Takes(lens: seq<nat>, w: seq<bool>, sym: nat, len: nat) {
    TakenAt(lens, w, 0).Some? && TakenAt(lens, w, 0).value.sym == sym && TakenAt(lens, w, 0).value.len == len
  }

  lemma TakesCode(lens: seq<nat>, w: seq<bool>, s: nat)
    requires Feasible(lens) && Used(lens, s) && CodeBits(lens, s) <= w
    ensures Takes(lens, w, s, lens[s])
  {
    var c := CodeBits(lens, s);
    assert |c| == lens[s];
    hide CodeBits, Kraft;
    assert w[0..|c|] == w[..|c|];
    SymbolIs(lens, s, w, 0);
  }

  /** No code fits. */
  ghost predicate NoCode(lens: seq<nat>, w: seq<bool>) {
    forall s: nat :: Used(lens, s) ==> !(CodeBits(lens, s) <= w)
  }

  lemma NoCodeSymbol(lens: seq<nat>, w: seq<bool>)
    requires NoCode(lens, w)
    ensures Symbol(lens, w, 0).None?
  {
    forall s: nat ensures !Codeword(lens, s, w, 0) {
      if Codeword(lens, s, w, 0) {
        CodeMatches(lens, w, s);
        assert false;
      }
    }
    NoSymbol(lens, w, 0);
  }

  lemma CodeMatches(lens: seq<nat>, w: seq<bool>, s: nat)
    requires Codeword(lens, s, w, 0)
    ensures !NoCode(lens, w)
  {
    hide CodeBits;
    assert w[0..|CodeBits(lens, s)|] == CodeBits(lens, s);
  }

  lemma EntryFits(lens: seq<nat>, w: seq<bool>, n: nat)
    requires n <= |w| && HasEnd(lens, |lens|, w[..n])
    ensures !NoCode(lens, w)
  {
    hide CodeBits;
    var s: nat :| Ends(lens, |lens|, s, w[..n]);
    assert CodeBits(lens, s) <= w;
  }

  lemma GoingThrough(lens: seq<nat>, w: seq<bool>, n: nat)
    requires n >= 10 && Going(lens, w, 0, n)
    ensures n <= |w| && Inner(lens, |lens|, [], w[..n])
  {
    hide CodeBits;
    assert w[0..n] == w[..n];
    var s: nat :| Used(lens, s) && n < lens[s] && w[..n] <= CodeBits(lens, s);
    assert Through(lens, s, w[..n]);
  }

  /** Where no code fits, an entry that is no node is empty. */
  lemma EmptyEntry(lens: seq<nat>, nodes: seq<seq<bool>>, w: seq<bool>, n: nat, v: int)
    requires Reached(lens, nodes, w, n, v) && v >= 0 && NoCode(lens, w)
    ensures v == 0 && !Going(lens, w, 0, n)
  {
    hide CodeBits, LeafOk, NoCode, HasEnd, Going, Inner;
    if v > 0 {
      EntryFits(lens, w, n);
      assert false;
    }
    if Going(lens, w, 0, n) {
      GoingThrough(lens, w, n);
      assert false;
    }
  }

  lemma TakesNothing(lens: seq<nat>, nodes: seq<seq<bool>>, w: seq<bool>, v: int)
    requires Reached(lens, nodes, w, 10, v) && v >= 0 && NoCode(lens, w)
    ensures v == 0 && Takes(lens, w, 0, 0)
  {
    hide Reached, NoCode;
    EmptyEntry(lens, nodes, w, 10, v);
    NoCodeSymbol(lens, w);
    forall n: nat ensures !Strays(lens, w, 0, n) {
      if Strays(lens, w, 0, n) {
        GoingBack(lens, w, 0, 10, n - 1);
      }
    }
    assert |w| == 15 by {
      ReachedLength(lens, nodes, w, 10, v);
    }
    TakesNone(lens, w, 0);
  }

  lemma ReachedLength(lens: seq<nat>, nodes: seq<seq<bool>>, w: seq<bool>, n: nat, v: int)
    requires Reached(lens, nodes, w, n, v)
    ensures |w| == 15 && n <= 15
  {
  }

  lemma TakesStray(lens: seq<nat>, nodes: seq<seq<bool>>, w: seq<bool>, n: nat, v: int)
    requires Reached(lens, nodes, w, n, v) && v >= 0 && NoCode(lens, w) && 10 < n && Going(lens, w, 0, n - 1)
    ensures v == 0 && Takes(lens, w, 0, n)
  {
    hide NoCode, Going;
    EmptyEntry(lens, nodes, w, n, v);
    NoCodeSymbol(lens, w);
    StrayTaken(lens, w, 0, n);
  }

  /** What the entry at the end of a lookup stands for. */
  lemma TakesEntry(lens: seq<nat>, nodes: seq<seq<bool>>, w: seq<bool>, n: nat, v: int)
    requires Reached(lens, nodes, w, n, v) && v >= 0 && Feasible(lens) && |lens| <= 288
    requires n > 10 ==> Going(lens, w, 0, n - 1)
    ensures if n == 10 then Takes(lens, w, v % 512, v / 512) else Takes(lens, w, v, n)
  {
    FeasibleLengths(lens);
    Arrived(lens, nodes, w, n, v);
    hide Reached, Feasible, CodeBits, Going;
    if NoCode(lens, w) {
      if n == 10 {
        TakesNothing(lens, nodes, w, v);
      } else {
        ReachedStart(lens, nodes, w, n, v);
        TakesStray(lens, nodes, w, n, v);
      }
    } else {
      var s: nat :| Used(lens, s) && CodeBits(lens, s) <= w;
      TakesCode(lens, w, s);
    }
  }

  lemma ReachedStart(lens: seq<nat>, nodes: seq<seq<bool>>, w: seq<bool>, n: nat, v: int)
    requires Reached(lens, nodes, w, n, v)
    ensures 10 <= n
  {
  }

  /** A node is on the way. */
  lemma NodeGoing(lens: seq<nat>, nodes: seq<seq<bool>>, lookUp: seq<i16>, tree: seq<i16>, w: seq<bool>, n: nat, v: int)
    requires TablesOk(lens, |lens|, [], nodes, lookUp, tree) && Reached(lens, nodes, w, n, v) && v < 0
    ensures Going(lens, w, 0, n)
  {
    hide EntryOk, LookOk, PairOk, CodeBits;
    NodeThere2(lens, nodes, w[..n], v, n == 10);
    PairOf(lens, nodes, tree, w[..n], v);
    var s: nat :| s < |lens| && Through(lens, s, w[..n]);
    assert w[0..n] == w[..n];
  }

  /**
   Decodes a symbol with the tables. Whatever the bits are, the entries read exist and the tree is left after at most
   five steps; if the bits start with a code, that is the code's symbol and length.
   */
  method Decode(lookUp: array<i16>, tree: array<i16>, buf: nat, ghost lens: seq<nat>) returns (sym: nat, len: nat)
    requires Feasible(lens) && |lens| <= 288 && TablesFor(lens, lookUp[..], tree[..])
    ensures sym < 288 && len <= 15 && Takes(lens, NatBits(buf, 15), sym, len)
    ensures len == TableLength(lookUp[..], tree[..], buf)
    ensures sym > 0 ==> len > 0 && sym < |lens|
  {
    hide *;
    ghost var nodes := NodesFor(lens, lookUp[..], tree[..]);
    FeasibleLengths(lens);
    ghost var bits := NatBits(buf, 15);
    LookedUp(lens, nodes, lookUp[..], tree[..], buf);
    var v: int := lookUp[Low(buf, 10)];
    TableStarts(lookUp[..], tree[..], buf);
    if v >= 0 {
      Arrived(lens, nodes, bits, 10, v);
      TakesEntry(lens, nodes, bits, 10, v);
      return v % 512, v / 512;
    }
    len := 10;
    ghost var v0 := v;
    while v < 0
      invariant 10 <= len <= 15 && Reached(lens, nodes, bits, len, v) && (v >= 0 ==> len > 10)
      invariant len > 10 ==> Going(lens, bits, 0, len - 1)
      invariant Walk(tree[..], v0, buf, 10) == Walk(tree[..], v, buf, len)
      decreases 15 - len
    {
      NodeGoing(lens, nodes, lookUp[..], tree[..], bits, len, v);
      GoOn(lens, nodes, lookUp[..], tree[..], bits, len, v);
      NatBitsAt(buf, 15, len);
      WalkStep(tree[..], v, buf, len);
      v := tree[-v - 1 + if Shr(buf, len) % 2 == 1 then 1 else 0];
      len := len + 1;
    }
    WalkEnds(tree[..], v, buf, len);
    Arrived(lens, nodes, bits, len, v);
    TakesEntry(lens, nodes, bits, len, v);
    sym := v;
  }

  lemma TableStarts(lookUp: seq<i16>, tree: seq<i16>, buf: nat)
    requires Low(buf, 10) < |lookUp|
    ensures TableLength(lookUp, tree, buf) == (var v := lookUp[Low(buf, 10)]; if v >= 0 then v / 512
        else Walk(tree, v, buf, 10).1)
  {
  }

  lemma WalkStep(tree: seq<i16>, v: int, buf: nat, n: nat)
    requires v < 0 && n < 15 && -v < |tree|
    ensures Walk(tree, v, buf, n) == Walk(tree, tree[-v - 1 + if Shr(buf, n) % 2 == 1 then 1 else 0], buf, n + 1)
  {
  }

  lemma WalkEnds(tree: seq<i16>, v: int, buf: nat, n: nat)
    requires v >= 0
    ensures Walk(tree, v, buf, n) == (v, n)
  {
  }

  /** The bit buffer's n bits are the first of w. */
  ghost predicate Agree(w: seq<bool>, buf: nat, n: nat) {
    |w| == 15 && n < 15 && w[..n] == NatBits(buf, 15)[..n]
  }

  /** A lookup that ends in the lookup table tells whether the code is among the first n bits. */
  lemma ShortReady(lens: seq<nat>, nodes: seq<seq<bool>>, buf: nat, n: nat, w: seq<bool>, v: int, s: nat)
    requires Feasible(lens) && |lens| <= 288 && Agree(w, buf, n) && Reached(lens, nodes, NatBits(buf, 15), 10, v)
    requires Used(lens, s) && CodeBits(lens, s) <= w && (v >= 0 || n <= 10)
    ensures v >= 0 && v / 512 > 0 && n >= v / 512 <==> lens[s] <= n
  {
    var p := NatBits(buf, 15);
    hide NatBits, CodeBits, Kraft, Inner;
    if lens[s] <= n {
      assert CodeBits(lens, s) <= w[..n];
      assert CodeBits(lens, s) <= p;
      if lens[s] <= 10 {
        assert CodeBits(lens, s) <= p[..10];
        assert Ends(lens, |lens|, s, p[..10]);
        LeafValue(lens[s], s);
      } else {
        Arrived(lens, nodes, p, 10, v);
      }
    }
    if v > 0 && n >= v / 512 {
      var t: nat :| Ends(lens, |lens|, t, p[..10]);
      LeafValue(lens[t], t);
      assert CodeBits(lens, t) <= p[..n];
      assert CodeBits(lens, t) <= w;
      PrefixFree(lens, s, t, w);
    }
  }

  /** A node after all n bits means that the code is longer. */
  lemma NodeReady(lens: seq<nat>, nodes: seq<seq<bool>>, lookUp: seq<i16>, tree: seq<i16>, n: nat, w: seq<bool>,
                  v: int, s: nat)
    requires Feasible(lens) && TablesOk(lens, |lens|, [], nodes, lookUp, tree) && Reached(lens, nodes, w, n, v) && v < 0
    requires Used(lens, s) && CodeBits(lens, s) <= w
    ensures n < lens[s]
  {
    hide Inner, CodeBits, Kraft, EntryOk;
    NodeThere2(lens, nodes, w[..n], v, n == 10);
    PairOf(lens, nodes, tree, w[..n], v);
    LongerThan(lens, w, n, s);
  }

  lemma ShortReadyAll(lens: seq<nat>, nodes: seq<seq<bool>>, buf: nat, n: nat, w: seq<bool>, v: int)
    requires Feasible(lens) && |lens| <= 288 && Agree(w, buf, n) && Reached(lens, nodes, NatBits(buf, 15), 10, v)
    requires v >= 0 || n <= 10
    ensures ReadyIs(lens, w, n, v >= 0 && v / 512 > 0 && n >= v / 512)
  {
    hide Feasible, Agree, Reached, NatBits, CodeBits;
    forall s: nat | Used(lens, s) && CodeBits(lens, s) <= w
      ensures v >= 0 && v / 512 > 0 && n >= v / 512 <==> lens[s] <= n
    {
      ShortReady(lens, nodes, buf, n, w, v, s);
    }
  }

  lemma NodeReadyAll(lens: seq<nat>, nodes: seq<seq<bool>>, lookUp: seq<i16>, tree: seq<i16>, n: nat, w: seq<bool>,
                     v: int)
    requires Feasible(lens) && TablesOk(lens, |lens|, [], nodes, lookUp, tree) && Reached(lens, nodes, w, n, v) && v < 0
    ensures ReadyIs(lens, w, n, false)
  {
    hide Feasible, Reached, TablesOk, CodeBits;
    forall s: nat | Used(lens, s) && CodeBits(lens, s) <= w ensures n < lens[s] {
      NodeReady(lens, nodes, lookUp, tree, n, w, v, s);
    }
  }

  /** `ready` says whether the code that w starts with has at most n bits. */
  ghost predicate ReadyIs(lens: seq<nat>, w: seq<bool>, n: nat, ready: bool) {
    forall s: nat :: Used(lens, s) && CodeBits(lens, s) <= w ==> (ready <==> lens[s] <= n)
  }

  lemma NodeThere2(lens: seq<nat>, nodes: seq<seq<bool>>, path: seq<bool>, v: int, short: bool)
    requires EntryOk(lens, |lens|, [], nodes, path, v, short) && v < 0
    ensures HasNode(nodes, path, v)
  {
  }

  lemma AgreeBit(w: seq<bool>, buf: nat, n: nat, m: nat)
    requires Agree(w, buf, n) && m < n
    ensures w[m] == (Shr(buf, m) % 2 == 1)
  {
    hide NatBits, Shr;
    NatBitsAt(buf, 15, m);
    assert w[m] == w[..n][m];
  }

  lemma AgreeStart(lens: seq<nat>, nodes: seq<seq<bool>>, buf: nat, n: nat, w: seq<bool>, v: int)
    requires Agree(w, buf, n) && Reached(lens, nodes, NatBits(buf, 15), 10, v) && n > 10
    ensures Reached(lens, nodes, w, 10, v)
  {
    hide NatBits, EntryOk;
    assert w[..10] == w[..n][..10];
    assert NatBits(buf, 15)[..10] == NatBits(buf, 15)[..n][..10];
  }

  /** Whether the first n bits of the buffer hold a whole code. */
  method Ready(lookUp: array<i16>, tree: array<i16>, buf: nat, n: nat, ghost lens: seq<nat>, ghost w: seq<bool>)
    returns (ready: bool)
    requires Feasible(lens) && |lens| <= 288 && TablesFor(lens, lookUp[..], tree[..]) && n < 15 && Agree(w, buf, n)
    ensures ready ==> 0 < TableLength(lookUp[..], tree[..], buf) <= n
    ensures !ready ==> TakenAt(lens, w[..n], 0).None?
  {
    hide *;
    ghost var nodes := NodesFor(lens, lookUp[..], tree[..]);
    FeasibleLengths(lens);
    LookedUp(lens, nodes, lookUp[..], tree[..], buf);
    var v: int := lookUp[Low(buf, 10)];
    TableStarts(lookUp[..], tree[..], buf);
    if v >= 0 || n <= 10 {
      ShortReadyAll(lens, nodes, buf, n, w, v);
      if !(v >= 0 && v / 512 > 0 && n >= v / 512) {
        ShortNotTaken(lens, nodes, buf, n, w, v);
      }
      return v >= 0 && v / 512 > 0 && n >= v / 512;
    }
    AgreeStart(lens, nodes, buf, n, w, v);
    var m := 10;
    ghost var v0 := v;
    while v < 0 && m < n
      invariant 10 <= m <= n < 15 && Reached(lens, nodes, w, m, v) && (v >= 0 ==> m > 10)
      invariant Walk(tree[..], v0, buf, 10) == Walk(tree[..], v, buf, m)
      decreases n - m
    {
      AgreeBit(w, buf, n, m);
      GoOn(lens, nodes, lookUp[..], tree[..], w, m, v);
      WalkStep(tree[..], v, buf, m);
      v := tree[-v - 1 + if Shr(buf, m) % 2 == 1 then 1 else 0];
      m := m + 1;
    }
    ready := v >= 0;
    if ready {
      WalkEnds(tree[..], v, buf, m);
    } else {
      NodeReadyAll(lens, nodes, lookUp[..], tree[..], n, w, v);
      NodeGoing(lens, nodes, lookUp[..], tree[..], w, n, v);
      ReachedLength(lens, nodes, w, m, v);
      NotTaken(lens, w, n);
    }
  }

  /** No code is among the first n bits, and no way has been left. */
  lemma NotTaken(lens: seq<nat>, w: seq<bool>, n: nat)
    requires |w| == 15 && n < 15 && ReadyIs(lens, w, n, false)
    requires n <= 10 || !Going(lens, w, 0, 10) || Going(lens, w, 0, n)
    ensures TakenAt(lens, w[..n], 0).None?
  {
    hide Going, ReadyIs, TakenAt, Symbol;
    forall s: nat ensures !Codeword(lens, s, w[..n], 0) {
      if Codeword(lens, s, w[..n], 0) {
        CodeIsReady(lens, w, n, s);
        assert false;
      }
    }
    NoSymbol(lens, w[..n], 0);
    forall m: nat ensures !Strays(lens, w[..n], 0, m) {
      if Strays(lens, w[..n], 0, m) {
        GoingIn(lens, w, n, m - 1);
        GoingIn(lens, w, n, m);
        GoingBack(lens, w, 0, 10, m - 1);
        if Going(lens, w, 0, n) {
          GoingBack(lens, w, 0, m, n);
        }
        assert false;
      }
    }
    TakesNone(lens, w[..n], 0);
  }

  lemma GoingIn(lens: seq<nat>, w: seq<bool>, n: nat, m: int)
    requires n <= |w| && 0 <= m <= n
    ensures Going(lens, w[..n], 0, m) == Going(lens, w, 0, m)
  {
    hide OnTheWay;
    assert w[..n][0..m] == w[0..m];
  }

  lemma CodeIsReady(lens: seq<nat>, w: seq<bool>, n: nat, s: nat)
    requires n <= |w| && Codeword(lens, s, w[..n], 0)
    ensures !ReadyIs(lens, w, n, false)
  {
    var c := CodeBits(lens, s);
    assert |c| == lens[s];
    hide CodeBits;
    assert w[..n][0..|c|] == w[..|c|];
  }

  lemma ShortNotTaken(lens: seq<nat>, nodes: seq<seq<bool>>, buf: nat, n: nat, w: seq<bool>, v: int)
    requires Agree(w, buf, n) && Reached(lens, nodes, NatBits(buf, 15), 10, v) && ReadyIs(lens, w, n, false)
    requires (v >= 0 || n <= 10) && !(v >= 0 && v / 512 > 0 && n >= v / 512) && LengthsOk(lens) && |lens| <= 288
    ensures TakenAt(lens, w[..n], 0).None?
  {
    hide ReadyIs, NatBits, Going, EntryOk, TakenAt;
    if n > 10 {
      AgreeStart(lens, nodes, buf, n, w, v);
      EmptyShort(lens, nodes, w, v);
    }
    NotTaken(lens, w, n);
  }

  /** An entry with no length is no node, so no code goes on there. */
  lemma EmptyShort(lens: seq<nat>, nodes: seq<seq<bool>>, w: seq<bool>, v: int)
    requires Reached(lens, nodes, w, 10, v) && v >= 0
    ensures !Going(lens, w, 0, 10)
  {
    hide CodeBits, LeafOk, HasEnd, Going, Inner;
    if Going(lens, w, 0, 10) {
      GoingThrough(lens, w, 10);
      assert false;
    }
  }

  lemma NodesFor(lens: seq<nat>, lookUp: seq<i16>, tree: seq<i16>) returns (nodes: seq<seq<bool>>)
    requires TablesFor(lens, lookUp, tree)
    ensures TablesOk(lens, |lens|, [], nodes, lookUp, tree) && |lookUp| == 1024
  {
    hide EntryOk, NodesOk, TreeOk;
    nodes :| TablesOk(lens, |lens|, [], nodes, lookUp, tree);
  }

  lemma FeasibleLengths(lens: seq<nat>)
    requires Feasible(lens)
    ensures LengthsOk(lens)
  {
  }

  // ----- making the way for a long code -----

  /** The next step of the way to the code of k: from the ten bits that are looked up, bit by bit. */
  ghost predicate NextStep(lens: seq<nat>, k: nat, way: seq<bool>, q: seq<bool>) {
    && Feasible(lens) && 10 <= |q| && Through(lens, k, q)
    && way == if |q| == 10 then [] else q[..|q| - 1]
  }

  /** The way now reaches to q, and to nothing else that it did not reach before. */
  lemma WayReaches(lens: seq<nat>, k: nat, way: seq<bool>, q: seq<bool>, r: seq<bool>)
    requires NextStep(lens, k, way, q)
    ensures Inner(lens, k, q, r) <==> Inner(lens, k, way, r) || r == q
  {
    if |r| < |q| && r <= q {
      assert r <= q[..|q| - 1];
    }
    if |r| == |q| && r <= q {
      assert r == q;
    }
  }

  lemma EntryKeeps(lens: seq<nat>, k: nat, way: seq<bool>, nodes: seq<seq<bool>>, q: seq<bool>, r: seq<bool>, v: int,
                   short: bool)
    requires NextStep(lens, k, way, q) && EntryOk(lens, k, way, nodes, r, v, short) && (r != q || v < 0)
    ensures EntryOk(lens, k, q, nodes, r, v, short) && EntryOk(lens, k, q, nodes + [q], r, v, short)
  {
    WayReaches(lens, k, way, q, r);
    hide Inner, LeafOk, HasEnd;
    if v < 0 {
      var j :| 0 <= j < |nodes| && nodes[j] == r && v == Ref(j);
      assert (nodes + [q])[j] == r;
    }
  }

  /** The entry that leads to the new node. */
  lemma EntryMade(lens: seq<nat>, k: nat, way: seq<bool>, nodes: seq<seq<bool>>, q: seq<bool>, short: bool)
    requires NextStep(lens, k, way, q)
    ensures EntryOk(lens, k, q, nodes + [q], q, Ref(|nodes|), short)
  {
    assert (nodes + [q])[|nodes|] == q;
    forall s: nat ensures !Ends(lens, k, s, q) {
      if Ends(lens, k, s, q) {
        EndsOrThrough(lens, k, s, k, q);
      }
    }
  }

  /** Nothing is below the new node yet. */
  lemma PairMade(lens: seq<nat>, k: nat, way: seq<bool>, nodes: seq<seq<bool>>, q: seq<bool>)
    requires NextStep(lens, k, way, q) && !Inner(lens, k, way, q)
    ensures PairOk(lens, k, q, nodes, q, 0, 0)
  {
    NothingBelow(lens, k, way, nodes, q, false);
    NothingBelow(lens, k, way, nodes, q, true);
  }

  lemma NothingBelow(lens: seq<nat>, k: nat, way: seq<bool>, nodes: seq<seq<bool>>, q: seq<bool>, b: bool)
    requires NextStep(lens, k, way, q) && !Inner(lens, k, way, q)
    ensures EntryOk(lens, k, q, nodes, q + [b], 0, false)
  {
    var r := q + [b];
    assert r[..|q|] == q;
    forall s: nat | s < k ensures !Through(lens, s, r) && !Ends(lens, k, s, r) {
      if Used(lens, s) {
        NotBelow(lens, k, way, q, r, s);
      }
    }
  }

  lemma NotBelow(lens: seq<nat>, k: nat, way: seq<bool>, q: seq<bool>, r: seq<bool>, s: nat)
    requires NextStep(lens, k, way, q) && !Inner(lens, k, way, q) && |r| == |q| + 1 && r[..|q|] == q && s < k
    requires Used(lens, s)
    ensures !Through(lens, s, r) && !Ends(lens, k, s, r)
  {
    var c := CodeBits(lens, s);
    assert !Through(lens, s, q);
    if |c| <= |q| && c <= r {
      assert c <= q;
      EndsOrThrough(lens, k, s, k, q);
    }
    if |c| > |q| {
      assert c <= r || r <= c ==> q <= c;
    }
  }

  lemma NodesMade(lens: seq<nat>, k: nat, way: seq<bool>, nodes: seq<seq<bool>>, q: seq<bool>)
    requires NextStep(lens, k, way, q) && NodesOk(lens, k, way, nodes)
    ensures NodesOk(lens, k, q, nodes)
    ensures !Inner(lens, k, way, q) ==> NodesOk(lens, k, q, nodes + [q])
  {
    forall j | 0 <= j < |nodes| ensures Inner(lens, k, q, nodes[j]) {
      WayReaches(lens, k, way, q, nodes[j]);
    }
    WayReaches(lens, k, way, q, q);
    hide Inner;
    forall j | 0 <= j < |nodes| ensures !Inner(lens, k, way, q) ==> nodes[j] != q {
      assert Inner(lens, k, way, nodes[j]);
    }
  }

  /** The entry for the next step is a node or empty; it is a node exactly when the way has been made before. */
  lemma StepEntry(lens: seq<nat>, k: nat, way: seq<bool>, nodes: seq<seq<bool>>, q: seq<bool>, v: int, short: bool)
    requires NextStep(lens, k, way, q) && EntryOk(lens, k, way, nodes, q, v, short)
    ensures v <= 0 && (v == 0 ==> !Inner(lens, k, way, q))
  {
    if v > 0 {
      var s: nat :| Ends(lens, k, s, q);
      EndsOrThrough(lens, k, s, k, q);
    }
  }

  lemma LookInjective(i: nat, j: nat)
    requires i < LOOKUP && j < LOOKUP && NatBits(i, 10) == NatBits(j, 10)
    ensures i == j
  {
    hide NatBits, Low;
    Pow2Values();
    BitsNatOfNatBits(i, 10);
    BitsNatOfNatBits(j, 10);
    LowSmall(i, 10);
    LowSmall(j, 10);
  }

  lemma LookMade(lens: seq<nat>, k: nat, nodes: seq<seq<bool>>, q: seq<bool>, lookUp: seq<i16>, at: nat)
    requires NextStep(lens, k, [], q) && LookOk(lens, k, [], nodes, lookUp) && at < LOOKUP && NatBits(at, 10) == q
    requires |nodes| < 1000
    ensures lookUp[at] <= 0 && (lookUp[at] == 0 ==> !Inner(lens, k, [], q))
    ensures lookUp[at] < 0 ==> LookOk(lens, k, q, nodes, lookUp)
    ensures LookOk(lens, k, q, nodes + [q], lookUp[at := Ref(|nodes|)])
  {
    hide EntryOk, NatBits, NextStep, Inner;
    StepEntry(lens, k, [], nodes, q, lookUp[at], true);
    EntryMade(lens, k, [], nodes, q, true);
    forall i | 0 <= i < LOOKUP && (i != at || lookUp[at] < 0)
      ensures EntryOk(lens, k, q, nodes, NatBits(i, 10), lookUp[i], true)
      ensures EntryOk(lens, k, q, nodes + [q], NatBits(i, 10), lookUp[i], true)
    {
      if i != at && NatBits(i, 10) == q {
        LookInjective(i, at);
      }
      EntryKeeps(lens, k, [], nodes, q, NatBits(i, 10), lookUp[i], true);
    }
  }

  lemma LookOther(lens: seq<nat>, k: nat, way: seq<bool>, nodes: seq<seq<bool>>, q: seq<bool>, lookUp: seq<i16>)
    requires NextStep(lens, k, way, q) && LookOk(lens, k, way, nodes, lookUp) && |q| > 10
    ensures LookOk(lens, k, q, nodes, lookUp) && LookOk(lens, k, q, nodes + [q], lookUp)
  {
    hide EntryOk, NatBits, NextStep, Inner;
    forall i | 0 <= i < LOOKUP
      ensures EntryOk(lens, k, q, nodes, NatBits(i, 10), lookUp[i], true)
      ensures EntryOk(lens, k, q, nodes + [q], NatBits(i, 10), lookUp[i], true)
    {
      EntryKeeps(lens, k, way, nodes, q, NatBits(i, 10), lookUp[i], true);
    }
  }

  lemma PairKeeps(lens: seq<nat>, k: nat, way: seq<bool>, nodes: seq<seq<bool>>, q: seq<bool>, path: seq<bool>,
                  v0: int, v1: int)
    requires NextStep(lens, k, way, q) && PairOk(lens, k, way, nodes, path, v0, v1)
    requires path + [false] == q ==> v0 < 0
    requires path + [true] == q ==> v1 < 0
    ensures PairOk(lens, k, q, nodes, path, v0, v1) && PairOk(lens, k, q, nodes + [q], path, v0, v1)
  {
    hide EntryOk, NextStep;
    EntryKeeps(lens, k, way, nodes, q, path + [false], v0, false);
    EntryKeeps(lens, k, way, nodes, q, path + [true], v1, false);
  }

  /** The first node of a way hangs on the lookup table. */
  lemma TreeOther(lens: seq<nat>, k: nat, nodes: seq<seq<bool>>, q: seq<bool>, tree: seq<i16>)
    requires NextStep(lens, k, [], q) && NodesOk(lens, k, [], nodes) && TreeOk(lens, k, [], nodes, tree) && |q| == 10
    ensures TreeOk(lens, k, q, nodes, tree)
    ensures !Inner(lens, k, [], q) && 2 * |nodes| + 2 <= |tree| ==> TreeOk(lens, k, q, nodes + [q], tree)
  {
    hide PairOk, NextStep;
    forall j | 0 <= j < |nodes|
      ensures PairOk(lens, k, q, nodes, nodes[j], tree[2 * j], tree[2 * j + 1])
      ensures PairOk(lens, k, q, nodes + [q], nodes[j], tree[2 * j], tree[2 * j + 1])
    {
      assert Inner(lens, k, [], nodes[j]);
      PairKeeps(lens, k, [], nodes, q, nodes[j], tree[2 * j], tree[2 * j + 1]);
    }
    if !Inner(lens, k, [], q) && 2 * |nodes| + 2 <= |tree| {
      PairMade(lens, k, [], nodes + [q], q);
      NewPair(lens, k, q, nodes, q, tree);
    }
  }

  /** Pairs of the old nodes and an empty pair for the new one. */
  lemma NewPair(lens: seq<nat>, k: nat, way: seq<bool>, nodes: seq<seq<bool>>, q: seq<bool>, tree: seq<i16>)
    requires 2 * |nodes| + 2 <= |tree| && PairOk(lens, k, way, nodes + [q], q, 0, 0)
    requires forall j :: 0 <= j < |nodes| ==> PairOk(lens, k, way, nodes + [q], nodes[j], tree[2 * j], tree[2 * j + 1])
    requires forall i :: 2 * |nodes| <= i < |tree| ==> tree[i] == 0
    ensures TreeOk(lens, k, way, nodes + [q], tree)
  {
    hide PairOk;
    var all := nodes + [q];
    forall j | 0 <= j < |all| ensures PairOk(lens, k, way, all, all[j], tree[2 * j], tree[2 * j + 1]) {
      if j == |nodes| {
        assert all[j] == q;
      } else {
        assert all[j] == nodes[j];
      }
    }
  }

  function Slot(j: nat, b: bool): nat {
    2 * j + if b then 1 else 0
  }

  /** The next node of a way hangs on the node before it. */
  lemma TreeMade(lens: seq<nat>, k: nat, way: seq<bool>, nodes: seq<seq<bool>>, q: seq<bool>, tree: seq<i16>, at: nat,
                 b: bool)
    requires NextStep(lens, k, way, q) && NodesOk(lens, k, way, nodes) && TreeOk(lens, k, way, nodes, tree)
    requires at < |nodes| < 1000 && nodes[at] == way && q == way + [b]
    ensures Slot(at, b) < |tree| && tree[Slot(at, b)] <= 0 && (tree[Slot(at, b)] == 0 ==> !Inner(lens, k, way, q))
    ensures tree[Slot(at, b)] < 0 ==> TreeOk(lens, k, q, nodes, tree)
    ensures tree[Slot(at, b)] == 0 && 2 * |nodes| + 2 <= |tree|
        ==> TreeOk(lens, k, q, nodes + [q], tree[Slot(at, b) := Ref(|nodes|)])
  {
    var v := tree[Slot(at, b)];
    assert PairOk(lens, k, way, nodes, nodes[at], tree[2 * at], tree[2 * at + 1]);
    StepEntry(lens, k, way, nodes, q, v, false);
    hide PairOk, NextStep, Inner;
    forall j | 0 <= j < |nodes| && (j != at || v < 0)
      ensures PairOk(lens, k, q, nodes, nodes[j], tree[2 * j], tree[2 * j + 1])
      ensures PairOk(lens, k, q, nodes + [q], nodes[j], tree[2 * j], tree[2 * j + 1])
    {
      SnocInjective(nodes[j], way, b);
      PairKeeps(lens, k, way, nodes, q, nodes[j], tree[2 * j], tree[2 * j + 1]);
    }
    if v == 0 && 2 * |nodes| + 2 <= |tree| {
      var tree' := tree[Slot(at, b) := Ref(|nodes|)];
      PairChanged(lens, k, way, nodes, q, tree[2 * at], tree[2 * at + 1], b);
      PairMade(lens, k, way, nodes + [q], q);
      NewPair(lens, k, q, nodes, q, tree');
    }
  }

  lemma SnocInjective(a: seq<bool>, way: seq<bool>, b: bool)
    ensures a != way ==> a + [false] != way + [b] && a + [true] != way + [b]
    ensures way + [!b] != way + [b]
  {
    assert (a + [false])[..|a|] == a && (a + [true])[..|a|] == a && (way + [b])[..|way|] == way;
    assert (way + [!b])[|way|] != (way + [b])[|way|];
  }

  /** The pair in which the new node is entered. */
  lemma PairChanged(lens: seq<nat>, k: nat, way: seq<bool>, nodes: seq<seq<bool>>, q: seq<bool>, v0: int, v1: int,
                    b: bool)
    requires NextStep(lens, k, way, q) && q == way + [b] && PairOk(lens, k, way, nodes, way, v0, v1)
    ensures PairOk(lens, k, q, nodes + [q], way, if b then v0 else Ref(|nodes|), if b then Ref(|nodes|) else v1)
  {
    hide EntryOk, NextStep;
    SnocInjective(way, way, b);
    EntryMade(lens, k, way, nodes, q, false);
    EntryKeeps(lens, k, way, nodes, q, way + [!b], if b then v0 else v1, false);
  }

  // ----- entering a symbol -----

  /** The way is complete: only the last bit of the code of k is missing. */
  ghost predicate WholeWay(lens: seq<nat>, k: nat, way: seq<bool>) {
    && Feasible(lens) && Used(lens, k)
    && way == if lens[k] > 10 then CodeBits(lens, k)[..lens[k] - 1] else []
  }

  /** What branches when k is among the symbols is what branched while its way was made. */
  lemma WayEnds(lens: seq<nat>, k: nat, way: seq<bool>, r: seq<bool>)
    requires WholeWay(lens, k, way)
    ensures Inner(lens, k + 1, [], r) <==> Inner(lens, k, way, r)
  {
    var c := CodeBits(lens, k);
    if 10 <= |r| {
      assert Through(lens, k, r) <==> lens[k] > 10 && r <= c[..lens[k] - 1];
    }
  }

  /** Entries that the new code does not reach stay as they are. */
  lemma EntryStays(lens: seq<nat>, k: nat, way: seq<bool>, nodes: seq<seq<bool>>, r: seq<bool>, v: int, short: bool)
    requires WholeWay(lens, k, way) && EntryOk(lens, k, way, nodes, r, v, short) && !(CodeBits(lens, k) <= r)
    ensures EntryOk(lens, k + 1, [], nodes, r, v, short)
  {
    WayEnds(lens, k, way, r);
    EndsStay(lens, k, r);
    hide Inner, Ends;
    var next := k + 1;
    forall s: nat | Ends(lens, next, s, r) ensures s < |lens| && v == Leaf(lens, s, short) {
      assert Ends(lens, k, s, r) && s < |lens|;
    }
    if v > 0 {
      var s: nat :| Ends(lens, k, s, r);
      assert Ends(lens, k + 1, s, r);
    }
  }

  lemma EndsStay(lens: seq<nat>, k: nat, r: seq<bool>)
    requires Used(lens, k) && !(CodeBits(lens, k) <= r)
    ensures forall s: nat :: Ends(lens, k + 1, s, r) <==> Ends(lens, k, s, r)
    ensures forall s: nat :: Ends(lens, k, s, r) ==> s < |lens|
  {
  }

  /** The new symbol's entry. */
  lemma EntryEntered(lens: seq<nat>, k: nat, nodes: seq<seq<bool>>, r: seq<bool>, short: bool)
    requires Feasible(lens) && Used(lens, k) && CodeBits(lens, k) <= r
    ensures EntryOk(lens, k + 1, [], nodes, r, Leaf(lens, k, short), short)
  {
    assert Ends(lens, k + 1, k, r);
    if Inner(lens, k + 1, [], r) {
      var t: nat :| t < k + 1 && Through(lens, t, r);
      EndsOrThrough(lens, k + 1, k, t, r);
      assert false;
    }
    var next := k + 1;
    forall s: nat | Ends(lens, next, s, r) ensures s == k {
      PrefixFree(lens, s, k, r);
    }
  }

  /** No node lies behind the end of the new code. */
  lemma NodeBefore(lens: seq<nat>, k: nat, way: seq<bool>, path: seq<bool>)
    requires WholeWay(lens, k, way) && Inner(lens, k, way, path)
    ensures !(CodeBits(lens, k) <= path)
  {
    if CodeBits(lens, k) <= path {
      assert Ends(lens, k + 1, k, path);
      if !(path <= way) {
        var s: nat :| s < k && Through(lens, s, path);
        EndsOrThrough(lens, k + 1, k, s, path);
      }
    }
  }

  lemma NodesStay(lens: seq<nat>, k: nat, way: seq<bool>, nodes: seq<seq<bool>>)
    requires WholeWay(lens, k, way) && NodesOk(lens, k, way, nodes)
    ensures NodesOk(lens, k + 1, [], nodes)
    ensures forall j :: 0 <= j < |nodes| ==> !(CodeBits(lens, k) <= nodes[j])
  {
    forall j | 0 <= j < |nodes| ensures Inner(lens, k + 1, [], nodes[j]) && !(CodeBits(lens, k) <= nodes[j]) {
      WayEnds(lens, k, way, nodes[j]);
      NodeBefore(lens, k, way, nodes[j]);
    }
  }

  /** A long code's symbol is entered at the end of its way. */
  lemma LongEntered(lens: seq<nat>, k: nat, way: seq<bool>, nodes: seq<seq<bool>>, lookUp: seq<i16>, tree: seq<i16>,
                    at: nat, b: bool)
    requires WholeWay(lens, k, way) && lens[k] > 10 && TablesOk(lens, k, way, nodes, lookUp, tree) && k < 300
    requires at < |nodes| && nodes[at] == way && CodeBits(lens, k) == way + [b]
    ensures Slot(at, b) < |tree| && TablesOk(lens, k + 1, [], nodes, lookUp, tree[Slot(at, b) := k])
  {
    NodesStay(lens, k, way, nodes);
    LongLook(lens, k, way, nodes, lookUp);
    LongTree(lens, k, way, nodes, tree, at, b);
  }

  lemma LongLook(lens: seq<nat>, k: nat, way: seq<bool>, nodes: seq<seq<bool>>, lookUp: seq<i16>)
    requires WholeWay(lens, k, way) && lens[k] > 10 && LookOk(lens, k, way, nodes, lookUp)
    ensures LookOk(lens, k + 1, [], nodes, lookUp)
  {
    hide EntryOk, NatBits, WholeWay;
    forall i | 0 <= i < LOOKUP ensures EntryOk(lens, k + 1, [], nodes, NatBits(i, 10), lookUp[i], true) {
      TooLong(lens, k, way, NatBits(i, 10));
      EntryStays(lens, k, way, nodes, NatBits(i, 10), lookUp[i], true);
    }
  }

  lemma TooLong(lens: seq<nat>, k: nat, way: seq<bool>, r: seq<bool>)
    requires WholeWay(lens, k, way) && |r| < lens[k]
    ensures !(CodeBits(lens, k) <= r)
  {
  }

  lemma LongTree(lens: seq<nat>, k: nat, way: seq<bool>, nodes: seq<seq<bool>>, tree: seq<i16>, at: nat, b: bool)
    requires WholeWay(lens, k, way) && NodesOk(lens, k, way, nodes) && TreeOk(lens, k, way, nodes, tree) && k < 300
    requires forall j :: 0 <= j < |nodes| ==> !(CodeBits(lens, k) <= nodes[j])
    requires at < |nodes| && nodes[at] == way && CodeBits(lens, k) == way + [b]
    ensures Slot(at, b) < |tree| && TreeOk(lens, k + 1, [], nodes, tree[Slot(at, b) := k])
  {
    hide WholeWay, EntryOk, Inner;
    var tree' := tree[Slot(at, b) := k];
    forall j | 0 <= j < |nodes|
      ensures PairOk(lens, k + 1, [], nodes, nodes[j], tree'[2 * j], tree'[2 * j + 1])
    {
      assert PairOk(lens, k, way, nodes, nodes[j], tree[2 * j], tree[2 * j + 1]);
      LongPair(lens, k, way, nodes, nodes[j], tree[2 * j], tree[2 * j + 1], b);
    }
  }

  lemma LongPair(lens: seq<nat>, k: nat, way: seq<bool>, nodes: seq<seq<bool>>, path: seq<bool>, v0: int, v1: int,
                 b: bool)
    requires WholeWay(lens, k, way) && PairOk(lens, k, way, nodes, path, v0, v1) && CodeBits(lens, k) == way + [b]
    requires !(CodeBits(lens, k) <= path)
    ensures path != way ==> PairOk(lens, k + 1, [], nodes, path, v0, v1)
    ensures path == way ==> PairOk(lens, k + 1, [], nodes, path, if b then v0 else k, if b then k else v1)
  {
    hide EntryOk;
    var c := CodeBits(lens, k);
    SnocInjective(path, way, b);
    NotReached(c, path, false);
    NotReached(c, path, true);
    if path == way {
      EntryEntered(lens, k, nodes, c, false);
      EntryStays(lens, k, way, nodes, path + [!b], if b then v0 else v1, false);
    } else {
      EntryStays(lens, k, way, nodes, path + [false], v0, false);
      EntryStays(lens, k, way, nodes, path + [true], v1, false);
    }
  }

  lemma NotReached(c: seq<bool>, path: seq<bool>, b: bool)
    requires !(c <= path)
    ensures c <= path + [b] <==> c == path + [b]
  {
    assert |c| <= |path| ==> (path + [b])[..|c|] == path[..|c|];
  }

  /** A short code's symbol is entered wherever the ten bits start with the code. */
  ghost predicate ShortFilled(lens: seq<nat>, k: nat, lookUp: seq<i16>, lookUp': seq<i16>)
    requires Used(lens, k)
  {
    && |lookUp| == |lookUp'| == LOOKUP
    && forall i :: 0 <= i < LOOKUP ==>
         lookUp'[i] == if CodeBits(lens, k) <= NatBits(i, 10) then Leaf(lens, k, true) else lookUp[i]
  }

  lemma ShortEntered(lens: seq<nat>, k: nat, nodes: seq<seq<bool>>, lookUp: seq<i16>, tree: seq<i16>, lookUp': seq<i16>)
    requires WholeWay(lens, k, []) && lens[k] <= 10 && TablesOk(lens, k, [], nodes, lookUp, tree)
    requires ShortFilled(lens, k, lookUp, lookUp')
    ensures TablesOk(lens, k + 1, [], nodes, lookUp', tree)
  {
    NodesStay(lens, k, [], nodes);
    ShortTree(lens, k, nodes, tree);
    hide EntryOk, NatBits, TreeOk, NodesOk, Leaf;
    forall i | 0 <= i < LOOKUP ensures EntryOk(lens, k + 1, [], nodes, NatBits(i, 10), lookUp'[i], true) {
      if CodeBits(lens, k) <= NatBits(i, 10) {
        EntryEntered(lens, k, nodes, NatBits(i, 10), true);
      } else {
        EntryStays(lens, k, [], nodes, NatBits(i, 10), lookUp[i], true);
      }
    }
  }

  lemma ShortTree(lens: seq<nat>, k: nat, nodes: seq<seq<bool>>, tree: seq<i16>)
    requires WholeWay(lens, k, []) && lens[k] <= 10 && NodesOk(lens, k, [], nodes) && TreeOk(lens, k, [], nodes, tree)
    requires forall j :: 0 <= j < |nodes| ==> !(CodeBits(lens, k) <= nodes[j])
    ensures TreeOk(lens, k + 1, [], nodes, tree)
  {
    assert Used(lens, k);
    hide WholeWay, EntryOk;
    forall j | 0 <= j < |nodes| ensures PairOk(lens, k + 1, [], nodes, nodes[j], tree[2 * j], tree[2 * j + 1]) {
      assert PairOk(lens, k, [], nodes, nodes[j], tree[2 * j], tree[2 * j + 1]);
      assert Inner(lens, k, [], nodes[j]);
      NotReached(CodeBits(lens, k), nodes[j], false);
      NotReached(CodeBits(lens, k), nodes[j], true);
      EntryStays(lens, k, [], nodes, nodes[j] + [false], tree[2 * j], false);
      EntryStays(lens, k, [], nodes, nodes[j] + [true], tree[2 * j + 1], false);
    }
  }

  /** A symbol without a code changes nothing. */
  lemma UnusedEntered(lens: seq<nat>, k: nat, nodes: seq<seq<bool>>, lookUp: seq<i16>, tree: seq<i16>)
    requires k < |lens| && lens[k] == 0 && TablesOk(lens, k, [], nodes, lookUp, tree)
    ensures TablesOk(lens, k + 1, [], nodes, lookUp, tree)
  {
    hide EntryOk, NatBits;
    var next := k + 1;
    forall r, v, short | EntryOk(lens, k, [], nodes, r, v, short) ensures EntryOk(lens, next, [], nodes, r, v, short) {
      UnusedEntry(lens, k, nodes, r, v, short);
    }
    forall r | Inner(lens, k, [], r) ensures Inner(lens, next, [], r) {
    }
  }

  lemma UnusedEntry(lens: seq<nat>, k: nat, nodes: seq<seq<bool>>, r: seq<bool>, v: int, short: bool)
    requires k < |lens| && lens[k] == 0 && EntryOk(lens, k, [], nodes, r, v, short)
    ensures EntryOk(lens, k + 1, [], nodes, r, v, short)
  {
    var next := k + 1;
    assert forall s: nat :: Ends(lens, next, s, r) <==> Ends(lens, k, s, r);
  }

  /** Ten bits that start with a code are those with the code's reverse in their low bits. */
  lemma ShortIndex(code: nat, len: nat, rev: nat, i: nat)
    requires NatBits(rev, len) == MsbBits(code, len) && rev < Pow2(len) && len <= 10 && i < LOOKUP
    ensures MsbBits(code, len) <= NatBits(i, 10) <==> Low(i, len) == rev
  {
    hide MsbBits, NatBits, Low;
    NatBitsTake(i, len, 10 - len);
    NatBitsLow(i, len);
    BitsNatOfNatBits(rev, len);
    BitsNatOfNatBits(Low(i, len), len);
    LowSmall(rev, len);
    LowBound(i, len);
    LowSmall(Low(i, len), len);
  }

  lemma LowStep(i: nat, len: nat)
    ensures Low(i + Pow2(len), len) == Low(i, len)
  {
    ShrLow(i, len);
  }

  lemma {:induction false} ShrLow(i: nat, len: nat)
    ensures Low(i + Shl(1, len), len) == Low(i, len)
  {
    if len > 0 {
      assert (i + Shl(1, len)) / 2 == i / 2 + Shl(1, len - 1);
      ShrLow(i / 2, len - 1);
    }
  }

  /** Within a stretch of 2^len numbers no two have the same low bits. */
  lemma {:induction false} LowUnique(i: nat, j: nat, len: nat)
    requires i < j < i + Pow2(len)
    ensures Low(i, len) != Low(j, len)
  {
    if len > 0 && i % 2 == j % 2 {
      LowUnique(i / 2, j / 2, len - 1);
    }
  }

  /** Enters a symbol with a code of at most ten bits. */
  method FillShort(lookUp: array<i16>, rev: nat, ghost lens: seq<nat>, k: nat, len: nat)
    requires lookUp.Length == LOOKUP && Used(lens, k) && lens[k] == len <= 10 && k < 300
    requires NatBits(rev, len) == CodeBits(lens, k) && rev < Pow2(len)
    modifies lookUp
    ensures ShortFilled(lens, k, old(lookUp[..]), lookUp[..])
  {
    var v: i16 := 512 * len + k;
    var i := rev;
    ghost var before := lookUp[..];
    ShortStart(len, rev);
    hide NatBits, MsbBits, Low, Shl;
    while i < LOOKUP
      invariant rev <= i && Low(i, len) == rev
      invariant forall n :: 0 <= n < LOOKUP ==> lookUp[n] == if n < i && Low(n, len) == rev then v else before[n]
      decreases LOOKUP - i
    {
      lookUp[i] := v;
      ShortNext(i, len, rev);
      i := i + Pow2(len);
    }
    ShortAll(lens, k, rev);
  }

  lemma ShortStart(len: nat, rev: nat)
    requires rev < Pow2(len)
    ensures Low(rev, len) == rev && forall n :: 0 <= n < rev ==> Low(n, len) != rev
  {
    forall n: nat | n <= rev ensures Low(n, len) == n {
      LowSmall(n, len);
    }
  }

  lemma ShortNext(i: nat, len: nat, rev: nat)
    requires Low(i, len) == rev
    ensures 0 < Pow2(len) && Low(i + Pow2(len), len) == rev
    ensures forall n :: i < n < i + Pow2(len) ==> Low(n, len) != rev
  {
    Pow2Monotone(0, len);
    LowStep(i, len);
    forall n | i < n < i + Pow2(len) ensures Low(n, len) != rev {
      LowUnique(i, n, len);
    }
  }

  lemma ShortAll(lens: seq<nat>, k: nat, rev: nat)
    requires Used(lens, k) && lens[k] <= 10 && NatBits(rev, lens[k]) == CodeBits(lens, k) && rev < Pow2(lens[k])
    ensures forall n :: 0 <= n < LOOKUP ==> (CodeBits(lens, k) <= NatBits(n, 10) <==> Low(n, lens[k]) == rev)
  {
    hide NatBits, MsbBits, Low, Shl;
    forall n | 0 <= n < LOOKUP ensures CodeBits(lens, k) <= NatBits(n, 10) <==> Low(n, lens[k]) == rev {
      ShortIndex(Code(lens, k), lens[k], rev, n);
    }
  }

  // ----- how many nodes there can be -----

  ghost predicate AllDistinct<T>(xs: seq<T>) {
    forall i, j :: 0 <= i < j < |xs| ==> xs[i] != xs[j]
  }

  /** Distinct numbers below n are at most n. */
  lemma {:induction false} Pigeonhole(xs: seq<nat>, n: nat)
    requires AllDistinct(xs) && forall i :: 0 <= i < |xs| ==> xs[i] < n
    ensures |xs| <= n
    decreases n
  {
    assert |xs| > 0 ==> xs[0] < n;
    if n > 0 {
      if i :| 0 <= i < |xs| && xs[i] == n - 1 {
        Pigeonhole(xs[..i] + xs[i + 1..], n - 1);
      } else {
        Pigeonhole(xs, n - 1);
      }
    }
  }

  /** The code goes on after path for some symbol. */
  ghost predicate Branches(lens: seq<nat>, path: seq<bool>) {
    10 <= |path| && exists t: nat :: Through(lens, t, path)
  }

  /** The bits just right of the middle of what starts with path. */
  function Middle(path: seq<bool>): (r: seq<bool>)
    requires |path| <= 14
    ensures |r| == 15
  {
    path + [true] + seq(14 - |path|, _ => false)
  }

  /** In a complete code, the symbol that the middle belongs to. */
  ghost predicate MidSymbol(lens: seq<nat>, path: seq<bool>, s: nat) {
    |path| <= 14 && Used(lens, s) && CodeBits(lens, s) <= Middle(path)
  }

  lemma MidExists(lens: seq<nat>, path: seq<bool>) returns (s: nat)
    requires LengthsOk(lens) && Kraft(lens) == 32768 && Branches(lens, path)
    ensures MidSymbol(lens, path, s) && s < |lens|
  {
    var t: nat :| Through(lens, t, path);
    hide Kraft, CodeBits;
    s := CompleteDecodes(lens, Middle(path));
  }

  /** The code that covers the middle is longer than the path. */
  lemma MidLonger(lens: seq<nat>, path: seq<bool>, s: nat)
    requires Feasible(lens) && Branches(lens, path) && MidSymbol(lens, path, s)
    ensures |path| < lens[s]
  {
    var t: nat :| Through(lens, t, path);
    if lens[s] <= |path| {
      assert Middle(path)[..|path|] == path;
      assert CodeBits(lens, s) <= path;
      EndsOrThrough(lens, s + 1, s, t, path);
    }
  }

  /** Different paths have different symbols at their middles. */
  lemma MidInjective(lens: seq<nat>, p: seq<bool>, q: seq<bool>, s: nat)
    requires Feasible(lens) && Branches(lens, p) && Branches(lens, q) && MidSymbol(lens, p, s) && MidSymbol(lens, q, s)
    requires |p| <= |q|
    ensures p == q
  {
    MidLonger(lens, p, s);
    MidLonger(lens, q, s);
    MiddleAt(p, |q|);
    MiddleAt(q, |q|);
    var c := CodeBits(lens, s);
    assert c[|q|] == Middle(q)[|q|] && c[|q|] == Middle(p)[|q|];
    assert c[..|p|] == Middle(p)[..|p|] == p;
    assert c[..|q|] == Middle(q)[..|q|] == q;
  }

  lemma MiddleAt(path: seq<bool>, i: nat)
    requires |path| <= i < 15
    ensures Middle(path)[i] <==> i == |path|
  {
  }

  lemma MidSymbols(lens: seq<nat>, nodes: seq<seq<bool>>) returns (xs: seq<nat>)
    requires LengthsOk(lens) && Kraft(lens) == 32768
    requires forall j :: 0 <= j < |nodes| ==> Branches(lens, nodes[j])
    ensures |xs| == |nodes| && forall j :: 0 <= j < |nodes| ==> MidSymbol(lens, nodes[j], xs[j]) && xs[j] < |lens|
  {
    hide Kraft, Branches, MidSymbol;
    xs := [];
    while |xs| < |nodes|
      invariant |xs| <= |nodes| && forall j :: 0 <= j < |xs| ==> MidSymbol(lens, nodes[j], xs[j]) && xs[j] < |lens|
    {
      var s := MidExists(lens, nodes[|xs|]);
      xs := xs + [s];
    }
  }

  lemma CompleteFew(lens: seq<nat>, nodes: seq<seq<bool>>)
    requires LengthsOk(lens) && Kraft(lens) == 32768 && AllDistinct(nodes)
    requires forall j :: 0 <= j < |nodes| ==> Branches(lens, nodes[j])
    ensures |nodes| <= |lens|
  {
    assert Feasible(lens);
    hide Kraft, Branches, MidSymbol, Feasible;
    var xs := MidSymbols(lens, nodes);
    forall i, j | 0 <= i < j < |xs| ensures xs[i] != xs[j] {
      if xs[i] == xs[j] {
        if |nodes[i]| <= |nodes[j]| {
          MidInjective(lens, nodes[i], nodes[j], xs[i]);
        } else {
          MidInjective(lens, nodes[j], nodes[i], xs[i]);
        }
      }
    }
    Pigeonhole(xs, |lens|);
  }

  lemma SingleFew(lens: seq<nat>, nodes: seq<seq<bool>>)
    requires LengthsOk(lens) && AtMostOneUsed(lens) && AllDistinct(nodes)
    requires forall j :: 0 <= j < |nodes| ==> Branches(lens, nodes[j])
    ensures |nodes| <= 5
  {
    hide CodeBits;
    forall j | 0 <= j < |nodes| ensures 10 <= |nodes[j]| < 15 {
      assert Branches(lens, nodes[j]);
    }
    var xs := seq(|nodes|, j requires 0 <= j < |nodes| && 10 <= |nodes[j]| => |nodes[j]| - 10);
    forall i, j | 0 <= i < j < |xs| ensures xs[i] != xs[j] {
      SingleWay(lens, nodes[i], nodes[j]);
    }
    Pigeonhole(xs, 5);
  }

  lemma SingleWay(lens: seq<nat>, p: seq<bool>, q: seq<bool>)
    requires AtMostOneUsed(lens) && Branches(lens, p) && Branches(lens, q)
    ensures |p| == |q| ==> p == q
  {
    var s: nat :| Through(lens, s, p);
    var t: nat :| Through(lens, t, q);
    assert s == t;
    assert p == CodeBits(lens, s)[..|p|] && q == CodeBits(lens, s)[..|q|];
  }

  /** The tree never needs more than twice as many entries as there are symbols, or ten. */
  lemma NodesFew(lens: seq<nat>, k: nat, way: seq<bool>, nodes: seq<seq<bool>>)
    requires CodeOk(lens) && NodesOk(lens, k, way, nodes) && (way != [] ==> Through(lens, k, way))
    ensures |nodes| <= |lens| || |nodes| <= 5
  {
    hide Kraft, CodeBits;
    forall j | 0 <= j < |nodes| ensures Branches(lens, nodes[j]) {
      assert Inner(lens, k, way, nodes[j]);
      if nodes[j] <= way {
        assert Through(lens, k, nodes[j]);
      }
    }
    if AtMostOneUsed(lens) {
      SingleFew(lens, nodes);
    } else {
      CompleteFew(lens, nodes);
    }
  }

  // ----- building the tables -----

  lemma EmptyTables(lens: seq<nat>, lookUp: seq<i16>, tree: seq<i16>)
    requires |lookUp| == LOOKUP && (forall i :: 0 <= i < LOOKUP ==> lookUp[i] == 0)
    requires forall i :: 0 <= i < |tree| ==> tree[i] == 0
    ensures TablesOk(lens, 0, [], [], lookUp, tree)
  {
  }

  /** The way to the code of k so far ends at node j. */
  ghost predicate OnWay(lens: seq<nat>, k: nat, d: nat, nodes: seq<seq<bool>>, j: nat, lookUp: seq<i16>,
                        tree: seq<i16>)
  {
    && CodeOk(lens) && Feasible(lens) && Used(lens, k) && 10 <= d < lens[k] && |lens| <= 288
    && TablesOk(lens, k, CodeBits(lens, k)[..d], nodes, lookUp, tree)
    && j < |nodes| && nodes[j] == CodeBits(lens, k)[..d]
    && 10 <= |tree| && 2 * |lens| <= |tree|
  }

  lemma StepOf(lens: seq<nat>, k: nat, d: nat)
    requires Feasible(lens) && Used(lens, k) && 10 <= d < lens[k]
    ensures NextStep(lens, k, if d == 10 then [] else CodeBits(lens, k)[..d - 1], CodeBits(lens, k)[..d])
  {
    var q := CodeBits(lens, k)[..d];
    assert d > 10 ==> q[..d - 1] == CodeBits(lens, k)[..d - 1];
  }

  lemma RoomFor(lens: seq<nat>, k: nat, way: seq<bool>, nodes: seq<seq<bool>>, q: seq<bool>, tree: seq<i16>)
    requires CodeOk(lens) && NextStep(lens, k, way, q) && NodesOk(lens, k, way, nodes) && |lens| <= 288
    requires 10 <= |tree| && 2 * |lens| <= |tree|
    ensures |nodes| < 1000
    ensures !Inner(lens, k, way, q) ==> NodesOk(lens, k, q, nodes + [q]) && 2 * |nodes| + 2 <= |tree|
    ensures NodesOk(lens, k, q, nodes)
  {
    NodesMade(lens, k, way, nodes, q);
    hide NodesOk, Inner, CodeOk;
    NodesFew(lens, k, q, nodes);
    if !Inner(lens, k, way, q) {
      NodesFew(lens, k, q, nodes + [q]);
    }
  }

  /** From the lookup table to the first node. */
  lemma FirstStep(lens: seq<nat>, k: nat, nodes: seq<seq<bool>>, lookUp: seq<i16>, tree: seq<i16>, at: nat)
    requires CodeOk(lens) && Feasible(lens) && Used(lens, k) && 10 < lens[k] && |lens| <= 288 && 10 <= |tree|
    requires 2 * |lens| <= |tree|
    requires TablesOk(lens, k, [], nodes, lookUp, tree) && at < LOOKUP && NatBits(at, 10) == CodeBits(lens, k)[..10]
    ensures |lookUp| == LOOKUP && lookUp[at] <= 0 && |nodes| < 1000
    ensures lookUp[at] == 0 ==> OnWay(lens, k, 10, nodes + [CodeBits(lens, k)[..10]], |nodes|,
        lookUp[at := Ref(|nodes|)], tree)
    ensures lookUp[at] < 0 ==> exists j :: OnWay(lens, k, 10, nodes, j, lookUp, tree) && lookUp[at] == Ref(j)
  {
    var q := CodeBits(lens, k)[..10];
    StepOf(lens, k, 10);
    hide CodeOk, CodeBits, NatBits, Inner, NextStep, EntryOk;
    RoomFor(lens, k, [], nodes, q, tree);
    LookMade(lens, k, nodes, q, lookUp, at);
    TreeOther(lens, k, nodes, q, tree);
    if lookUp[at] < 0 {
      NodeThere(lens, k, [], nodes, q, lookUp[at], true);
      var j :| 0 <= j < |nodes| && nodes[j] == q && lookUp[at] == Ref(j);
      assert OnWay(lens, k, 10, nodes, j, lookUp, tree);
    }
  }

  lemma NodeThere(lens: seq<nat>, k: nat, way: seq<bool>, nodes: seq<seq<bool>>, path: seq<bool>, v: int, short: bool)
    requires EntryOk(lens, k, way, nodes, path, v, short) && v < 0
    ensures HasNode(nodes, path, v)
  {
  }

  /** From one node to the next. */
  lemma TreeStep(lens: seq<nat>, k: nat, d: nat, nodes: seq<seq<bool>>, j: nat, lookUp: seq<i16>, tree: seq<i16>)
    requires OnWay(lens, k, d, nodes, j, lookUp, tree) && d + 1 < lens[k]
    ensures |nodes| < 1000 && var at := Slot(j, CodeBits(lens, k)[d]);
      && at < |tree| && tree[at] <= 0
      && (tree[at] == 0 ==> OnWay(lens, k, d + 1, nodes + [CodeBits(lens, k)[..d + 1]], |nodes|, lookUp,
          tree[at := Ref(|nodes|)]))
      && (tree[at] < 0 ==> exists i :: OnWay(lens, k, d + 1, nodes, i, lookUp, tree) && tree[at] == Ref(i))
  {
    var c := CodeBits(lens, k);
    var way, q, b := c[..d], c[..d + 1], c[d];
    StepOf(lens, k, d + 1);
    assert q == way + [b];
    hide CodeOk, CodeBits, NatBits, Inner, NextStep, EntryOk;
    var at := Slot(j, b);
    RoomFor(lens, k, way, nodes, q, tree);
    LookOther(lens, k, way, nodes, q, lookUp);
    TreeMade(lens, k, way, nodes, q, tree, j, b);
    if tree[at] < 0 {
      PairEntry(lens, k, way, nodes, j, tree, b);
      NodeThere(lens, k, way, nodes, q, tree[at], false);
      var i :| 0 <= i < |nodes| && nodes[i] == q && tree[at] == Ref(i);
      assert OnWay(lens, k, d + 1, nodes, i, lookUp, tree);
    }
  }

  lemma PairEntry(lens: seq<nat>, k: nat, way: seq<bool>, nodes: seq<seq<bool>>, j: nat, tree: seq<i16>, b: bool)
    requires TreeOk(lens, k, way, nodes, tree) && j < |nodes|
    ensures Slot(j, b) < |tree| && EntryOk(lens, k, way, nodes, nodes[j] + [b], tree[Slot(j, b)], false)
  {
    assert PairOk(lens, k, way, nodes, nodes[j], tree[2 * j], tree[2 * j + 1]);
  }

  /** The last bit of a long code. */
  lemma LastStep(lens: seq<nat>, k: nat, d: nat, nodes: seq<seq<bool>>, j: nat, lookUp: seq<i16>, tree: seq<i16>)
    requires OnWay(lens, k, d, nodes, j, lookUp, tree) && d + 1 == lens[k]
    ensures var at := Slot(j, CodeBits(lens, k)[d]);
      at < |tree| && TablesOk(lens, k + 1, [], nodes, lookUp, tree[at := k])
  {
    var c := CodeBits(lens, k);
    assert c == c[..d] + [c[d]];
    hide CodeBits, TablesOk, CodeOk;
    LongEntered(lens, k, c[..d], nodes, lookUp, tree, j, c[d]);
  }

  /** Bits of the reversed code are those of the code in the order they come. */
  lemma ReverseBits(lens: seq<nat>, k: nat, rev: nat)
    requires Used(lens, k) && NatBits(rev, lens[k]) == CodeBits(lens, k)
    ensures forall d :: 0 <= d < lens[k] ==> CodeBits(lens, k)[d] == (Shr(rev, d) % 2 == 1)
    ensures 10 <= lens[k] ==> Low(rev, 10) < LOOKUP && NatBits(Low(rev, 10), 10) == CodeBits(lens, k)[..10]
  {
    hide CodeBits, NatBits, Low, Shr;
    forall d | 0 <= d < lens[k] ensures CodeBits(lens, k)[d] == (Shr(rev, d) % 2 == 1) {
      NatBitsAt(rev, lens[k], d);
    }
    if 10 <= lens[k] {
      Pow2Values();
      LowBound(rev, 10);
      NatBitsLow(rev, 10);
      NatBitsTake(rev, 10, lens[k] - 10);
    }
  }

  lemma ShrOnce(rev: nat, d: nat)
    ensures Shr(rev, d + 1) == Shr(rev, d) / 2
  {
    ShrHalf(rev, d);
  }

  lemma {:induction false} ShrHalf(v: nat, n: nat)
    ensures Shr(v, n + 1) == Shr(v, n) / 2
  {
    if n > 0 {
      ShrHalf(v / 2, n - 1);
    }
  }

  /** Enters a symbol with a code of more than ten bits; new nodes get the references from next on. */
  method FillLong(lookUp: array<i16>, tree: array<i16>, next: int, rev: nat, ghost lens: seq<nat>, k: nat, len: nat,
                  ghost nodes: seq<seq<bool>>)
    returns (next': int, ghost nodes': seq<seq<bool>>)
    requires CodeOk(lens) && Feasible(lens) && Used(lens, k) && lens[k] == len > 10 && |lens| <= 288 && lookUp != tree
    requires 10 <= tree.Length && 2 * |lens| <= tree.Length && NatBits(rev, len) == CodeBits(lens, k)
    requires TablesOk(lens, k, [], nodes, lookUp[..], tree[..]) && next == Ref(|nodes|)
    modifies lookUp, tree
    ensures TablesOk(lens, k + 1, [], nodes', lookUp[..], tree[..]) && next' == Ref(|nodes'|)
  {
    hide CodeOk, Feasible, CodeBits, NatBits, TablesOk, OnWay, Shr, Low;
    next', nodes' := next, nodes;
    ReverseBits(lens, k, rev);
    ghost var j: nat := |nodes|;
    FirstStep(lens, k, nodes, lookUp[..], tree[..], Low(rev, 10));
    ghost var look := lookUp[..];
    var at := Low(rev, 10);
    var cur: int := lookUp[at];
    if cur == 0 {
      var v: i16 := next';
      lookUp[at] := v;
      assert lookUp[..] == look[at := v];
      cur := next';
      next' := next' - 2;
      nodes' := nodes + [CodeBits(lens, k)[..10]];
    } else {
      j :| OnWay(lens, k, 10, nodes, j, lookUp[..], tree[..]) && cur == Ref(j);
    }
    var r := Shr(rev, 10);
    for d := 10 to len - 1
      invariant OnWay(lens, k, d, nodes', j, lookUp[..], tree[..]) && cur == Ref(j) && next' == Ref(|nodes'|)
      invariant r == Shr(rev, d)
    {
      cur, next', j, nodes' := NextNode(lookUp, tree, cur, next', r % 2, lens, k, d, nodes', j);
      ShrOnce(rev, d);
      r := r / 2;
    }
    LastStep(lens, k, len - 1, nodes', j, lookUp[..], tree[..]);
    ghost var before := tree[..];
    cur := cur - r % 2;
    WayShort(lens, k, len - 1, nodes', j, lookUp[..], tree[..]);
    var v: i16 := k;
    tree[-cur - 1] := v;
    assert tree[..] == before[Slot(j, CodeBits(lens, k)[len - 1]) := v];
  }

  lemma WayShort(lens: seq<nat>, k: nat, d: nat, nodes: seq<seq<bool>>, j: nat, lookUp: seq<i16>, tree: seq<i16>)
    requires OnWay(lens, k, d, nodes, j, lookUp, tree)
    ensures k < 288
  {
  }

  /** Follows the way by one bit, making the node if there is none. */
  method NextNode(lookUp: array<i16>, tree: array<i16>, cur: int, next: int, bit: nat, ghost lens: seq<nat>, k: nat,
                  ghost d: nat, ghost nodes: seq<seq<bool>>, ghost j: nat)
    returns (cur': int, next': int, ghost j': nat, ghost nodes': seq<seq<bool>>)
    requires OnWay(lens, k, d, nodes, j, lookUp[..], tree[..]) && cur == Ref(j) && next == Ref(|nodes|)
    requires lookUp != tree
    requires Used(lens, k) && d + 1 < lens[k] && bit == if CodeBits(lens, k)[d] then 1 else 0
    modifies tree
    ensures OnWay(lens, k, d + 1, nodes', j', lookUp[..], tree[..]) && cur' == Ref(j') && next' == Ref(|nodes'|)
  {
    hide CodeBits, OnWay;
    TreeStep(lens, k, d, nodes, j, lookUp[..], tree[..]);
    ghost var before := tree[..];
    cur', next', nodes' := cur - bit, next, nodes;
    var at := -cur' - 1;
    assert at == Slot(j, CodeBits(lens, k)[d]);
    if tree[at] == 0 {
      var v: i16 := next;
      tree[at] := v;
      assert tree[..] == before[at := v];
      nodes' := nodes + [CodeBits(lens, k)[..d + 1]];
      j' := |nodes|;
      cur' := next;
      next' := next - 2;
    } else {
      cur' := tree[at];
      j' :| OnWay(lens, k, d + 1, nodes, j', lookUp[..], tree[..]) && cur' == Ref(j');
    }
  }

  /** How many symbols have a code of at most m bits. */
  function CountsUpTo(lens: seq<nat>, m: nat): nat {
    if m == 0 then 0 else CountsUpTo(lens, m - 1) + Count(lens, m)
  }

  lemma {:induction false} CountsUpToSnoc(lens: seq<nat>, m: nat)
    requires lens != []
    ensures CountsUpTo(lens, m) == CountsUpTo(lens[..|lens| - 1], m) + if 1 <= lens[|lens| - 1] <= m then 1 else 0
  {
    if m > 0 {
      CountsUpToSnoc(lens, m - 1);
    }
  }

  lemma {:induction false} CountsUpToEmpty(m: nat)
    ensures CountsUpTo([], m) == 0
  {
    if m > 0 {
      CountsUpToEmpty(m - 1);
    }
  }

  /** The number of used symbols tells whether there is at most one. */
  lemma {:induction false} UsedCounts(lens: seq<nat>)
    requires LengthsOk(lens)
    ensures CountsUpTo(lens, 15) == 0 <==> forall i :: 0 <= i < |lens| ==> lens[i] == 0
    ensures CountsUpTo(lens, 15) <= 1 <==> AtMostOneUsed(lens)
  {
    hide CountsUpTo;
    if lens == [] {
      CountsUpToEmpty(15);
    } else {
      var n := |lens| - 1;
      var front := lens[..n];
      UsedCounts(front);
      CountsUpToSnoc(lens, 15);
      assert forall i :: 0 <= i < n ==> front[i] == lens[i];
      assert AtMostOneUsed(lens) <==> (AtMostOneUsed(front)
          && (lens[n] == 0 || forall i :: 0 <= i < n ==> front[i] == 0));
    }
  }

  /** A single code of any length is feasible. */
  lemma SingleFeasible(lens: seq<nat>)
    requires LengthsOk(lens) && AtMostOneUsed(lens)
    ensures Feasible(lens)
  {
    if 32768 < Kraft(lens) {
      var s := FindInterval(lens, 32768, 16);
      var t := FindInterval(lens, 0, 16);
      assert s == t;
      hide Kraft, Below, Code;
      IntervalSize(lens, s);
      assert false;
    }
  }

  /** No interval holds both 0 and 32768. */
  lemma IntervalSize(lens: seq<nat>, s: nat)
    requires Used(lens, s) && lens[s] <= 15
    ensures Start(lens, s) == 0 ==> Stop(lens, s) <= 32768
  {
    ShlAdd(Code(lens, s), 1, 15 - lens[s]);
    Pow2Monotone(15 - lens[s], 15);
    Pow2Values();
  }

  lemma CodeOkFeasible(lens: seq<nat>)
    requires CodeOk(lens)
    ensures Feasible(lens)
  {
    if Kraft(lens) != 32768 {
      SingleFeasible(lens);
    }
  }

  /** The last code counter tells whether the code is complete. */
  lemma TotalIsKraft(lens: seq<nat>)
    ensures NextCode(lens, 16) == 2 * Kraft(lens)
  {
    NextCodeBelow(lens, 15);
  }

  /** The counters of the first codes, and how many symbols and how much code space they stand for. */
  ghost predicate Counters(lens: seq<nat>, i: nat, used: nat, total: nat, next: seq<nat>) {
    && 1 <= i <= 16 && |next| == 17 && used == CountsUpTo(lens, i - 1) && total == NextCode(lens, i)
    && forall l :: 1 <= l <= i ==> next[l] == NextCode(lens, l)
  }

  lemma CountersStart(lens: seq<nat>, next: seq<nat>)
    requires |next| == 17 && forall l :: 0 <= l < 17 ==> next[l] == 0
    ensures Counters(lens, 1, 0, 0, next)
  {
  }

  lemma CountersNext(lens: seq<nat>, i: nat, used: nat, total: nat, next: seq<nat>)
    requires Counters(lens, i, used, total, next) && i < 16
    ensures |next| == 17
    ensures Counters(lens, i + 1, used + Count(lens, i), 2 * (total + Count(lens, i)),
        next[i + 1 := 2 * (total + Count(lens, i))])
  {
    hide Count;
  }

  lemma CountersDone(lens: seq<nat>, used: nat, total: nat, next: seq<nat>)
    requires Counters(lens, 16, used, total, next) && LengthsOk(lens)
    ensures CodeOk(lens) <==> !(65536 != total && used > 1)
    ensures NextCodes(lens, 15, 0, next)
  {
    UsedCounts(lens);
    TotalIsKraft(lens);
    CountNone(lens);
    hide Count, NextCode, CountsUpTo, Kraft;
  }

  /** Counts the code lengths and works out the first code of each. */
  method CountCodes(sizes: array<nat>, n: nat) returns (next: array<nat>, ok: bool)
    requires n <= sizes.Length && LengthsOk(sizes[..n])
    ensures fresh(next) && next.Length == 17
    ensures ok <==> CodeOk(sizes[..n])
    ensures NextCodes(sizes[..n], 15, 0, next[..])
  {
    ghost var lens := sizes[..n];
    var counts := new nat[16](_ => 0);
    for i := 0 to n
      invariant forall l :: 0 <= l < 16 ==> counts[l] == Count(lens[..i], l)
    {
      assert lens[i] == sizes[i];
      forall l | 0 <= l < 16 ensures Count(lens[..i + 1], l) == Count(lens[..i], l) + if lens[i] == l then 1 else 0 {
        CountOneMore(lens, i, l);
      }
      counts[sizes[i]] := counts[sizes[i]] + 1;
    }
    assert lens[..n] == lens;
    next := new nat[17](_ => 0);
    var used: nat, total: nat := 0, 0;
    hide Count, Counters;
    CountersStart(lens, next[..]);
    for i := 1 to 16
      invariant Counters(lens, i, used, total, next[..])
      invariant forall l :: 0 <= l < 16 ==> counts[l] == Count(lens, l)
    {
      ghost var before := next[..];
      CountersNext(lens, i, used, total, before);
      used := used + counts[i];
      total := 2 * (total + counts[i]);
      next[i + 1] := total;
      assert next[..] == before[i + 1 := total];
    }
    CountersDone(lens, used, total, next[..]);
    ok := !(65536 != total && used > 1);
  }

  lemma LookupDone(lens: seq<nat>, nodes: seq<seq<bool>>, lookUp: seq<i16>, tree: seq<i16>, k: nat)
    requires TablesOk(lens, k, [], nodes, lookUp, tree) && k == |lens|
    ensures TablesFor(lens, lookUp, tree)
  {
    hide NodesOk, LookOk, TreeOk;
  }

  /** Enters symbol k. */
  method FillSymbol(lookUp: array<i16>, tree: array<i16>, next: int, nextCode: array<nat>, ghost lens: seq<nat>,
                    k: nat, len: nat, ghost nodes: seq<seq<bool>>)
    returns (next': int, ghost nodes': seq<seq<bool>>)
    requires CodeOk(lens) && Feasible(lens) && k < |lens| <= 288 && lens[k] == len && nextCode.Length == 17
    requires lookUp != tree && lookUp.Length == 1024 && 10 <= tree.Length && 2 * |lens| <= tree.Length
    requires nextCode as object != lookUp && nextCode as object != tree
    requires TablesOk(lens, k, [], nodes, lookUp[..], tree[..]) && next == Ref(|nodes|)
    requires NextCodes(lens, 15, k, nextCode[..])
    modifies lookUp, tree, nextCode
    ensures TablesOk(lens, k + 1, [], nodes', lookUp[..], tree[..]) && next' == Ref(|nodes'|)
    ensures NextCodes(lens, 15, k + 1, nextCode[..])
  {
    FeasibleLengths(lens);
    ghost var codes, look := nextCode[..], lookUp[..];
    NextCodesStep(lens, 15, k, codes);
    next', nodes' := next, nodes;
    if len == 0 {
      UnusedEntered(lens, k, nodes, lookUp[..], tree[..]);
      return;
    }
    hide CodeOk, Feasible, CodeBits, NatBits, TablesOk, NextCodes, WholeWay, ShortFilled;
    CodeFits(lens, k);
    CodeBitsIs(lens, k, nextCode[len]);
    var code := nextCode[len];
    nextCode[len] := code + 1;
    assert nextCode[..] == codes[len := code + 1];
    var rev := ReverseCode(code, len);
    assert lookUp[..] == look;
    if len <= 10 {
      WholeShort(lens, k);
      FillShort(lookUp, rev, lens, k, len);
      ShortEntered(lens, k, nodes, look, tree[..], lookUp[..]);
    } else {
      next', nodes' := FillLong(lookUp, tree, next, rev, lens, k, len, nodes);
    }
  }

  lemma WholeShort(lens: seq<nat>, k: nat)
    requires Feasible(lens) && Used(lens, k) && lens[k] <= 10
    ensures WholeWay(lens, k, [])
  {
  }

  /** Builds the tables for a code, or refuses it. */
  method BuildTable(sizes: array<nat>, n: nat, lookUp: array<i16>, tree: array<i16>) returns (ok: bool)
    requires n <= sizes.Length && n <= 288 && LengthsOk(sizes[..n])
    requires lookUp.Length == 1024 && 10 <= tree.Length && 2 * n <= tree.Length && lookUp != tree
    requires sizes as object != lookUp && sizes as object != tree
    modifies lookUp, tree
    ensures ok <==> CodeOk(sizes[..n])
    ensures ok ==> TablesFor(sizes[..n], lookUp[..], tree[..])
  {
    ghost var lens := sizes[..n];
    forall i | 0 <= i < lookUp.Length {
      lookUp[i] := 0;
    }
    forall i | 0 <= i < tree.Length {
      tree[i] := 0;
    }
    EmptyTables(lens, lookUp[..], tree[..]);
    hide LengthsOk, CodeOk, TablesOk, TablesFor, NextCodes, Feasible;
    assert sizes[..n] == lens;
    var nextCode;
    nextCode, ok := CountCodes(sizes, n);
    if !ok {
      return;
    }
    CodeOkFeasible(lens);
    var next: int := -1;
    ghost var nodes: seq<seq<bool>> := [];
    for k := 0 to n
      invariant TablesOk(lens, k, [], nodes, lookUp[..], tree[..]) && next == Ref(|nodes|)
      invariant NextCodes(lens, 15, k, nextCode[..]) && sizes[..n] == lens
    {
      assert lens[k] == sizes[k];
      next, nodes := FillSymbol(lookUp, tree, next, nextCode, lens, k, sizes[k], nodes);
    }
    LookupDone(lens, nodes, lookUp[..], tree[..], n);
  }
}
