/** Run-length packing of code lengths, RFC 1951 section 3.2.7, and its inverse. */
module CodeLengthPacking {
  import opened Bits
  import opened CanonicalCode
  import opened Deflate
  import opened DeflateEncoding

  /** A packed entry: a code length, or a run symbol (16, 17 or 18) with its extra bits. */
  datatype Item = Item(sym: nat, extra: nat)

  function ExtraBits(sym: nat): nat {
    if sym < 16 then 0 else RunBits(sym)
  }

  function RunLength(item: Item): nat {
    if item.sym < 16 then 1 else item.extra + RunBase(item.sym)
  }

  ghost predicate ItemOk(item: Item) {
    item.sym <= 18 && (item.sym < 16 ==> item.extra == 0) && item.extra < Pow2(ExtraBits(item.sym))
  }

  /** The code lengths after an entry. */
  function Unpack(lens: seq<nat>, item: Item): (r: seq<nat>)
    ensures |r| == |lens| + RunLength(item)
  {
    if item.sym < 16 then lens + [item.sym]
    else lens + Repeat(if item.sym == 16 && lens != [] then lens[|lens| - 1] else 0, RunLength(item))
  }

  function UnpackAll(lens: seq<nat>, items: seq<Item>): (r: seq<nat>)
  {
    if items == [] then lens else Unpack(UnpackAll(lens, items[..|items| - 1]), items[|items| - 1])
  }

  /** The entries are well formed and no run of the previous length comes first. */
  ghost predicate ItemsOk(lens: seq<nat>, items: seq<Item>) {
    && (forall i :: 0 <= i < |items| ==> ItemOk(items[i]))
    && (lens == [] && items != [] ==> items[0].sym != 16)
  }

  /** The entries as the byte array holds them: run symbols are followed by their extra bits. */
  function Flat(items: seq<Item>): seq<nat> {
    if items == [] then []
    else
      var item := items[|items| - 1];
      Flat(items[..|items| - 1]) + if item.sym < 16 then [item.sym] else [item.sym, item.extra]
  }

  /** How often symbol s occurs. */
  function SymCount(items: seq<Item>, s: nat): nat {
    if items == [] then 0
    else SymCount(items[..|items| - 1], s) + if items[|items| - 1].sym == s then 1 else 0
  }

  lemma FlatSnoc(items: seq<Item>, item: Item)
    ensures Flat(items + [item]) == Flat(items) + if item.sym < 16 then [item.sym] else [item.sym, item.extra]
    ensures UnpackAll([], items + [item]) == Unpack(UnpackAll([], items), item)
    ensures forall s :: SymCount(items + [item], s) == SymCount(items, s) + if item.sym == s then 1 else 0
  {
    assert (items + [item])[..|items|] == items;
  }

  /** The packed array never outgrows the list. */
  lemma {:induction false} FlatFits(items: seq<Item>)
    ensures |Flat(items)| <= |UnpackAll([], items)|
  {
    if items != [] {
      FlatFits(items[..|items| - 1]);
    }
  }

  lemma {:induction false} UnpackNonEmpty(items: seq<Item>)
    ensures |items| <= |UnpackAll([], items)|
  {
    if items != [] {
      UnpackNonEmpty(items[..|items| - 1]);
    }
  }

  // ----- which entries a list is packed into -----

  /** How many of the last elements are equal. */
  function LastRun(s: seq<nat>): (n: nat)
    requires s != []
    ensures 1 <= n <= |s|
  {
    var m := |s| - 1;
    if m > 0 && s[m - 1] == s[m] then 1 + LastRun(s[..m]) else 1
  }

  /** The longest run that one entry can stand for: of zeros, and of another length after it has occurred. */
  function Longest(c: nat): nat {
    if c == 0 then 138 else 6
  }

  /** At most so many: a run symbol from three on, and below that each on its own. */
  function Chunk(c: nat, n: nat): seq<Item> {
    if n == 0 then [] else if n == 1 then [Item(c, 0)] else if n == 2 then [Item(c, 0), Item(c, 0)]
    else if c > 0 then [Item(16, n - 3)] else if n <= 10 then [Item(17, n - 3)] else if n <= 138 then [Item(18, n - 11)]
    else []
  }

  /** As many of the longest runs as go into n, and what is left. */
  function Full(c: nat, n: nat): seq<Item> {
    if n < Longest(c) then [] else Chunk(c, Longest(c)) + Full(c, n - Longest(c))
  }

  function Left(c: nat, n: nat): (r: nat)
    ensures r < Longest(c)
  {
    if n < Longest(c) then n else Left(c, n - Longest(c))
  }

  /** A run of n after other entries, but for what may still grow. The first is sent as it is, unless it is a zero. */
  function RunSoFar(before: seq<Item>, c: nat, n: nat): seq<Item>
    requires n > 0
  {
    if c == 0 then before + Full(c, n) else before + [Item(c, 0)] + Full(c, n - 1)
  }

  function Pending(c: nat, n: nat): (r: nat)
    requires n > 0
    ensures r < Longest(c)
  {
    Left(c, if c == 0 then n else n - 1)
  }

  function Run(before: seq<Item>, c: nat, n: nat): seq<Item>
    requires n > 0
  {
    RunSoFar(before, c, n) + Chunk(c, Pending(c, n))
  }

  /** The list without its last run. */
  function Before(s: seq<nat>): (r: seq<nat>)
    requires s != []
    ensures |r| < |s|
  {
    s[..|s| - LastRun(s)]
  }

  /** A list is packed run by run. */
  function Packed(s: seq<nat>): seq<Item> {
    if s == [] then [] else Run(Packed(Before(s)), s[|s| - 1], LastRun(s))
  }

  /** The packer in the middle of a run: z zeros or r repeats of another length are pending. */
  ghost predicate Stage(done: seq<nat>, items: seq<Item>, z: nat, r: nat) {
    if done == [] then items == [] && z == 0 && r == 0 else
    var n, c := LastRun(done), done[|done| - 1];
    && items == RunSoFar(Packed(Before(done)), c, n)
    && (if c == 0 then r == 0 && z == Pending(c, n) else z == 0 && r == Pending(c, n))
  }

  /** One more in a run. */
  lemma {:induction false} OneMore(c: nat, n: nat)
    ensures Left(c, n + 1) == if Left(c, n) + 1 < Longest(c) then Left(c, n) + 1 else 0
    ensures Full(c, n + 1) == Full(c, n) + if Left(c, n) + 1 < Longest(c) then [] else Chunk(c, Longest(c))
  {
    hide Chunk;
    if n >= Longest(c) {
      OneMore(c, n - Longest(c));
    }
  }

  /** With what is pending the list is packed. */
  lemma StagePacked(done: seq<nat>, items: seq<Item>, z: nat, r: nat)
    requires Stage(done, items, z, r) && done != []
    ensures Packed(done) == items + Chunk(done[|done| - 1], z + r)
  {
    hide Chunk, RunSoFar, Pending, LastRun, Full, Left, Longest, Packed, Before;
    PackedIs(done);
  }

  lemma StageEmpty(done: seq<nat>, items: seq<Item>, z: nat, r: nat)
    requires Stage(done, items, z, r) && done == []
    ensures Packed(done) == items && z == r == 0
  {
  }

  lemma PackedIs(s: seq<nat>)
    requires s != []
    ensures var n, c := LastRun(s), s[|s| - 1];
      Packed(s) == RunSoFar(Packed(Before(s)), c, n) + Chunk(c, Pending(c, n))
  {
    hide Chunk, RunSoFar, Pending, LastRun, Full, Left, Longest, Before;
  }

  lemma RunStarts(before: seq<Item>, c: nat)
    ensures Pending(c, 1) == if c == 0 then 1 else 0
    ensures RunSoFar(before, c, 1) == before + if c == 0 then [] else [Item(c, 0)]
  {
    hide Chunk;
  }

  lemma LastRunOn(done: seq<nat>, c: nat)
    ensures LastRun(done + [c]) == if done != [] && done[|done| - 1] == c then 1 + LastRun(done) else 1
  {
    assert (done + [c])[..|done|] == done;
  }

  lemma BeforeOn(done: seq<nat>, c: nat)
    ensures Before(done + [c]) == if done != [] && done[|done| - 1] == c then Before(done) else done
  {
    LastRunOn(done, c);
    hide LastRun;
  }

  /** The run goes on. */
  lemma StageOn(done: seq<nat>, items: seq<Item>, z: nat, r: nat)
    requires Stage(done, items, z, r) && done != []
    ensures var c := done[|done| - 1];
      if c == 0 then
        if z + 1 < 138 then Stage(done + [0], items, z + 1, 0) else Stage(done + [0], items + Chunk(0, z + 1), 0, 0)
      else
        if r + 1 < 6 then Stage(done + [c], items, 0, r + 1) else Stage(done + [c], items + Chunk(c, r + 1), 0, 0)
  {
    var n, c := LastRun(done), done[|done| - 1];
    LastRunOn(done, c);
    BeforeOn(done, c);
    RunOn(Packed(Before(done)), c, n);
    hide Chunk, RunSoFar, Pending, LastRun, Full, Left, Packed, Before;
  }

  lemma RunOn(before: seq<Item>, c: nat, n: nat)
    requires n > 0
    ensures Pending(c, n + 1) == if Pending(c, n) + 1 < Longest(c) then Pending(c, n) + 1 else 0
    ensures RunSoFar(before, c, n + 1)
         == RunSoFar(before, c, n) + if Pending(c, n) + 1 < Longest(c) then [] else Chunk(c, Longest(c))
  {
    hide Chunk, Full, Left;
    OneMore(c, if c == 0 then n else n - 1);
  }

  /** Another run starts. */
  lemma StageNew(done: seq<nat>, c: nat)
    requires done == [] || done[|done| - 1] != c
    ensures if c == 0 then Stage(done + [0], Packed(done), 1, 0)
            else Stage(done + [c], Packed(done) + [Item(c, 0)], 0, 0)
  {
    hide Chunk, RunSoFar, Pending, LastRun, Full, Left, Longest, Packed, Before;
    LastRunOn(done, c);
    BeforeOn(done, c);
    RunStarts(Packed(done), c);
    assert Packed(done) + [] == Packed(done);
  }

  // ----- packing -----

  /** The packer between two entries of the list. */
  ghost predicate Packing(done: seq<nat>, items: seq<Item>, prev: nat, z: nat, r: nat) {
    && ItemsOk([], items)
    && UnpackAll([], items) + Repeat(0, z) + Repeat(prev, r) == done
    && (z == 0 || r == 0) && z <= 138 && r <= 6
    && (r > 0 ==> items != [] && prev <= 15 && UnpackAll([], items) != []
                  && UnpackAll([], items)[|UnpackAll([], items)| - 1] == prev)
    && (if done == [] then prev == 255 else prev == done[|done| - 1] && prev <= 15)
  }

  /** The packed bytes and the symbol counts written so far. */
  ghost predicate Written(items: seq<Item>, packed: seq<nat>, n: nat, counts: seq<nat>) {
    && n <= |packed| && packed[..n] == Flat(items)
    && |counts| >= 19 && forall s :: 0 <= s <= 18 ==> counts[s] == SymCount(items, s)
  }

  lemma RepeatFirst(v: nat, n: nat)
    requires 0 < n
    ensures Repeat(v, n) == [v] + Repeat(v, n - 1)
  {
  }

  /** Emitting one pending length. */
  lemma PackOne(done: seq<nat>, items: seq<Item>, prev: nat, z: nat, r: nat)
    requires Packing(done, items, prev, z, r)
    ensures 0 < r ==> Packing(done, items + [Item(prev, 0)], prev, 0, r - 1)
    ensures 0 < z ==> Packing(done, items + [Item(0, 0)], prev, z - 1, 0)
  {
    var u := UnpackAll([], items);
    if 0 < r {
      FlatSnoc(items, Item(prev, 0));
      RepeatFirst(prev, r);
      assert u + Repeat(0, 0) + Repeat(prev, r) == (u + [prev]) + Repeat(0, 0) + Repeat(prev, r - 1);
    }
    if 0 < z {
      FlatSnoc(items, Item(0, 0));
      RepeatFirst(0, z);
      assert u + Repeat(0, z) + Repeat(prev, 0) == (u + [0]) + Repeat(0, z - 1) + Repeat(prev, 0);
    }
  }

  /** Emitting a whole pending run. */
  lemma PackRun(done: seq<nat>, items: seq<Item>, prev: nat, z: nat, r: nat)
    requires Packing(done, items, prev, z, r)
    ensures 3 <= r ==> Packing(done, items + [Item(16, r - 3)], prev, 0, 0)
    ensures 3 <= z <= 10 ==> Packing(done, items + [Item(17, z - 3)], prev, 0, 0)
    ensures 11 <= z ==> Packing(done, items + [Item(18, z - 11)], prev, 0, 0)
  {
    var u := UnpackAll([], items);
    Pow2Values();
    if 3 <= r {
      FlatSnoc(items, Item(16, r - 3));
      assert u + Repeat(0, 0) + Repeat(prev, r) == (u + Repeat(prev, r)) + Repeat(0, 0) + Repeat(prev, 0);
    } else if 3 <= z {
      var item := if z <= 10 then Item(17, z - 3) else Item(18, z - 11);
      FlatSnoc(items, item);
      assert u + Repeat(0, z) + Repeat(prev, 0) == (u + Repeat(0, z)) + Repeat(0, 0) + Repeat(prev, 0);
    }
  }

  /** Nothing is pending. */
  lemma PackedAll(done: seq<nat>, items: seq<Item>, prev: nat)
    requires Packing(done, items, prev, 0, 0)
    ensures UnpackAll([], items) == done
  {
    assert UnpackAll([], items) + Repeat(0, 0) + Repeat(prev, 0) == UnpackAll([], items);
  }

  lemma PackLength(done: seq<nat>, items: seq<Item>, prev: nat, c: nat)
    requires Packing(done, items, prev, 0, 0) && 1 <= c <= 15
    ensures Packing(done + [c], items + [Item(c, 0)], c, 0, 0)
  {
    PackedAll(done, items, prev);
    FlatSnoc(items, Item(c, 0));
    var u := UnpackAll([], items + [Item(c, 0)]);
    assert u + Repeat(0, 0) + Repeat(c, 0) == u;
  }

  lemma PackPending(done: seq<nat>, items: seq<Item>, prev: nat, z: nat, r: nat)
    requires Packing(done, items, prev, z, r)
    ensures r == 0 && z < 138 ==> Packing(done + [0], items, 0, z + 1, 0)
    ensures z == 0 && r < 6 && 1 <= prev <= 15 ==> Packing(done + [prev], items, prev, 0, r + 1)
  {
    var u := UnpackAll([], items);
    if r == 0 && z < 138 {
      assert (u + Repeat(0, z) + Repeat(prev, 0)) + [0] == u + Repeat(0, z + 1) + Repeat(0, 0);
    }
    if z == 0 && r < 6 && 1 <= prev <= 15 {
      assert (u + Repeat(0, 0) + Repeat(prev, r)) + [prev] == u + Repeat(0, 0) + Repeat(prev, r + 1);
      if r == 0 {
        PackedAll(done, items, prev);
        FlatNonEmpty(items);
      }
    }
  }

  lemma FlatNonEmpty(items: seq<Item>)
    requires UnpackAll([], items) != []
    ensures items != []
  {
  }

  /** Room for one more entry: what is unpacked never exceeds the length of the list. */
  lemma RoomFor(done: seq<nat>, items: seq<Item>, prev: nat, z: nat, r: nat)
    requires Packing(done, items, prev, z, r)
    ensures |Flat(items)| + z + r <= |done|
  {
    FlatFits(items);
  }

  /** Appends an entry to the packed bytes and counts its symbol. */
  method Emit(packed: array<nat>, n: nat, counts: array<nat>, sym: nat, extra: nat, ghost items: seq<Item>)
    returns (n': nat)
    requires Written(items, packed[..], n, counts[..]) && sym <= 18 && packed != counts
    requires n + (if sym < 16 then 1 else 2) <= packed.Length
    modifies packed, counts
    ensures Written(items + [Item(sym, extra)], packed[..], n', counts[..])
  {
    FlatSnoc(items, Item(sym, extra));
    hide Flat, SymCount;
    counts[sym] := counts[sym] + 1;
    packed[n] := sym;
    n' := n + 1;
    if sym >= 16 {
      packed[n'] := extra;
      n' := n' + 1;
    }
  }

  /** Writes out the pending repeats of the previous length. */
  method FlushRepeats(packed: array<nat>, n: nat, counts: array<nat>, prev: nat, r: nat, ghost done: seq<nat>,
                      ghost items: seq<Item>)
    returns (n': nat, ghost items': seq<Item>)
    requires Written(items, packed[..], n, counts[..]) && Packing(done, items, prev, 0, r) && packed != counts
    requires |done| <= packed.Length && 0 < prev
    modifies packed, counts
    ensures Written(items', packed[..], n', counts[..]) && Packing(done, items', prev, 0, 0)
    ensures items' == items + Chunk(prev, r)
  {
    n', items' := n, items;
    RoomFor(done, items, prev, 0, r);
    assert n == |Flat(items)|;
    hide Packing, Written, Flat;
    if r >= 3 {
      PackRun(done, items, prev, 0, r);
      n' := Emit(packed, n, counts, 16, r - 3, items);
      items' := items + [Item(16, r - 3)];
    } else {
      var left := r;
      while left > 0
        invariant 0 <= left <= r && items' == items + Chunk(prev, r - left)
        invariant Written(items', packed[..], n', counts[..]) && Packing(done, items', prev, 0, left)
      {
        PackOne(done, items', prev, 0, left);
        PendingRoom(done, items', prev, 0, left, packed[..], n', counts[..]);
        n' := Emit(packed, n', counts, prev, 0, items');
        items' := items' + [Item(prev, 0)];
        left := left - 1;
      }
    }
  }

  lemma PendingRoom(done: seq<nat>, items: seq<Item>, prev: nat, z: nat, r: nat, packed: seq<nat>, n: nat,
                    counts: seq<nat>)
    requires Packing(done, items, prev, z, r) && Written(items, packed, n, counts) && |done| <= |packed|
    ensures n + z + r <= |packed| && (r > 0 ==> prev <= 15)
  {
    RoomFor(done, items, prev, z, r);
    assert n == |packed[..n]|;
  }

  /** Writes out the pending zero lengths. */
  method FlushZeros(packed: array<nat>, n: nat, counts: array<nat>, prev: nat, z: nat, ghost done: seq<nat>,
                    ghost items: seq<Item>)
    returns (n': nat, ghost items': seq<Item>)
    requires Written(items, packed[..], n, counts[..]) && Packing(done, items, prev, z, 0) && packed != counts
    requires |done| <= packed.Length
    modifies packed, counts
    ensures Written(items', packed[..], n', counts[..]) && Packing(done, items', prev, 0, 0)
    ensures items' == items + Chunk(0, z)
  {
    n', items' := n, items;
    PendingRoom(done, items, prev, z, 0, packed[..], n, counts[..]);
    hide Packing, Written, Flat;
    if z >= 3 {
      PackRun(done, items, prev, z, 0);
      if z <= 10 {
        n' := Emit(packed, n, counts, 17, z - 3, items);
        items' := items + [Item(17, z - 3)];
      } else {
        n' := Emit(packed, n, counts, 18, z - 11, items);
        items' := items + [Item(18, z - 11)];
      }
    } else {
      var left := z;
      while left > 0
        invariant 0 <= left <= z && items' == items + Chunk(0, z - left)
        invariant Written(items', packed[..], n', counts[..]) && Packing(done, items', prev, left, 0)
      {
        PackOne(done, items', prev, left, 0);
        PendingRoom(done, items', prev, left, 0, packed[..], n', counts[..]);
        n' := Emit(packed, n', counts, 0, 0, items');
        items' := items' + [Item(0, 0)];
        left := left - 1;
      }
    }
  }

  /** One code length of the list. */
  method PackNext(c: nat, packed: array<nat>, n: nat, counts: array<nat>, prev: nat, z: nat, r: nat,
                  ghost done: seq<nat>, ghost items: seq<Item>)
    returns (n': nat, z': nat, r': nat, ghost items': seq<Item>)
    requires Written(items, packed[..], n, counts[..]) && Packing(done, items, prev, z, r) && packed != counts
    requires |done| < packed.Length && c <= 15 && z < 138 && r < 6 && Stage(done, items, z, r)
    modifies packed, counts
    ensures Written(items', packed[..], n', counts[..]) && Packing(done + [c], items', c, z', r') && z' < 138 && r' < 6
    ensures Stage(done + [c], items', z', r')
  {
    hide *;
    EitherPending(done, items, prev, z, r);
    NextStage(done, items, prev, z, r, c);
    n', z', r', items' := n, z, r, items;
    if c == 0 {
      if r > 0 {
        n', items' := FlushRepeats(packed, n, counts, prev, r, done, items);
      }
      r' := 0;
      PackPending(done, items', prev, z, 0);
      z' := z + 1;
      if z' == 138 {
        n', items' := FlushZeros(packed, n', counts, 0, z', done + [0], items');
        z' := 0;
      }
    } else {
      if z > 0 {
        n', items' := FlushZeros(packed, n, counts, prev, z, done, items);
      }
      z' := 0;
      if c != prev {
        if r > 0 {
          n', items' := FlushRepeats(packed, n', counts, prev, r, done, items');
        }
        r' := 0;
        PackLength(done, items', prev, c);
        PendingRoom(done, items', prev, 0, 0, packed[..], n', counts[..]);
        RoomForOne(done, items', prev, packed[..], n', counts[..]);
        n' := Emit(packed, n', counts, c, 0, items');
        items' := items' + [Item(c, 0)];
      } else {
        PackPending(done, items', prev, 0, r);
        r' := r + 1;
        if r' == 6 {
          n', items' := FlushRepeats(packed, n', counts, c, r', done + [c], items');
          r' := 0;
        }
      }
    }
  }

  /** What comes next: the run goes on, or what is pending is sent and another run starts. */
  lemma NextStage(done: seq<nat>, items: seq<Item>, prev: nat, z: nat, r: nat, c: nat)
    requires Stage(done, items, z, r) && Packing(done, items, prev, z, r) && c <= 15 && z < 138 && r < 6
    ensures r > 0 ==> prev > 0
    ensures z > 0 ==> prev == 0
    ensures c == 0 == prev ==>
      if z + 1 < 138 then Stage(done + [c], items, z + 1, 0) else Stage(done + [c], items + Chunk(0, z + 1), 0, 0)
    ensures 0 < c == prev ==>
      if r + 1 < 6 then Stage(done + [c], items, 0, r + 1) else Stage(done + [c], items + Chunk(c, r + 1), 0, 0)
    ensures c == 0 < prev ==> Stage(done + [c], items + Chunk(prev, r), 1, 0)
    ensures c > 0 && c != prev && z == 0 ==> Stage(done + [c], items + Chunk(prev, r) + [Item(c, 0)], 0, 0)
    ensures c > 0 && c != prev && r == 0 ==> Stage(done + [c], items + Chunk(0, z) + [Item(c, 0)], 0, 0)
    ensures items + Chunk(prev, 0) == items + Chunk(0, 0) == items
  {
    EitherPending(done, items, prev, z, r);
    StagePending(done, items, prev, z, r);
    assert items + [] == items;
    if done == [] {
      StageEmpty(done, items, z, r);
    } else {
      StagePacked(done, items, z, r);
    }
    if done != [] && prev == c {
      StageOn(done, items, z, r);
    } else {
      StageNew(done, c);
    }
    hide Stage, Packing, Packed;
  }

  /** What is pending is of the kind that was last. */
  lemma StagePending(done: seq<nat>, items: seq<Item>, prev: nat, z: nat, r: nat)
    requires Stage(done, items, z, r) && Packing(done, items, prev, z, r)
    ensures done == [] ==> prev == 255
    ensures done != [] ==> prev == done[|done| - 1] && prev <= 15
    ensures z > 0 ==> done != [] && prev == 0
    ensures r > 0 ==> done != [] && prev > 0
  {
    hide Full, Left, LastRun, Packed;
  }

  lemma EitherPending(done: seq<nat>, items: seq<Item>, prev: nat, z: nat, r: nat)
    requires Packing(done, items, prev, z, r)
    ensures z == 0 || r == 0
  {
  }

  lemma RoomForOne(done: seq<nat>, items: seq<Item>, prev: nat, packed: seq<nat>, n: nat, counts: seq<nat>)
    requires Packing(done, items, prev, 0, 0) && Written(items, packed, n, counts) && |done| < |packed|
    ensures n + 1 <= |packed|
  {
    RoomFor(done, items, prev, 0, 0);
    assert n == |packed[..n]|;
  }

  lemma PackingStarts(packed: seq<nat>, counts: seq<nat>)
    requires |counts| >= 19 && forall s :: 0 <= s <= 18 ==> counts[s] == 0
    ensures Written([], packed, 0, counts) && Packing([], [], 255, 0, 0) && Stage([], [], 0, 0)
  {
  }

  /** Packs a list of code lengths run by run, counting the symbols used: unpacking the entries gives back the list. */
  method PackCodeSizes(sizes: array<nat>, total: nat, packed: array<nat>, counts: array<nat>)
    returns (n: nat, ghost items: seq<Item>)
    requires total <= sizes.Length && total <= packed.Length && counts.Length >= 19
    requires packed != counts && sizes != packed && sizes != counts
    requires forall i :: 0 <= i < total ==> sizes[i] <= 15
    modifies packed, counts
    ensures Written(items, packed[..], n, counts[..]) && ItemsOk([], items)
    ensures UnpackAll([], items) == sizes[..total] && items == Packed(sizes[..total])
  {
    hide Packing, Written, Stage, Packed;
    forall s | 0 <= s < 19 {
      counts[s] := 0;
    }
    n, items := 0, [];
    PackingStarts(packed[..], counts[..]);
    var z, r, prev := 0, 0, 255;
    for i := 0 to total
      invariant Written(items, packed[..], n, counts[..]) && Packing(sizes[..i], items, prev, z, r) && z < 138 && r < 6
      invariant Stage(sizes[..i], items, z, r)
    {
      var c := sizes[i];
      assert sizes[..i + 1] == sizes[..i] + [c];
      n, z, r, items := PackNext(c, packed, n, counts, prev, z, r, sizes[..i], items);
      prev := c;
    }
    EitherPending(sizes[..total], items, prev, z, r);
    StagePending(sizes[..total], items, prev, z, r);
    if total == 0 {
      StageEmpty(sizes[..total], items, z, r);
    } else {
      StagePacked(sizes[..total], items, z, r);
    }
    if r > 0 {
      n, items := FlushRepeats(packed, n, counts, prev, r, sizes[..total], items);
    } else {
      n, items := FlushZeros(packed, n, counts, prev, z, sizes[..total], items);
    }
    PackedAll(sizes[..total], items, prev);
    PackedOk(sizes[..total], items, prev);
  }

  lemma PackedOk(done: seq<nat>, items: seq<Item>, prev: nat)
    requires Packing(done, items, prev, 0, 0)
    ensures ItemsOk([], items)
  {
  }

  // ----- sending and receiving -----

  ghost predicate ItemsSendable(cl: seq<nat>, items: seq<Item>) {
    forall i :: 0 <= i < |items| ==> Used(cl, items[i].sym)
  }

  /** The bits that send an entry: its symbol's code, and a run's extra bits. */
  function ItemBits(cl: seq<nat>, item: Item): seq<bool>
    requires Used(cl, item.sym)
  {
    CodeBits(cl, item.sym) + NatBits(item.extra, ExtraBits(item.sym))
  }

  function ItemsBits(cl: seq<nat>, items: seq<Item>): seq<bool>
    requires ItemsSendable(cl, items)
  {
    if items == [] then [] else ItemsBits(cl, items[..|items| - 1]) + ItemBits(cl, items[|items| - 1])
  }

  lemma {:induction false} ItemsBitsFirst(cl: seq<nat>, items: seq<Item>)
    requires ItemsSendable(cl, items) && items != []
    ensures ItemsBits(cl, items) == ItemBits(cl, items[0]) + ItemsBits(cl, items[1..])
  {
    hide ItemBits;
    if |items| == 1 {
      assert items[..0] == [] && items[1..] == [];
    } else {
      var n := |items| - 1;
      ItemsBitsFirst(cl, items[..n]);
      assert items[..n][1..] == items[1..][..n - 1];
      Associate(ItemBits(cl, items[0]), ItemsBits(cl, items[1..][..n - 1]), ItemBits(cl, items[n]));
    }
  }

  lemma {:induction false} UnpackAllFirst(lens: seq<nat>, items: seq<Item>)
    requires items != []
    ensures UnpackAll(lens, items) == UnpackAll(Unpack(lens, items[0]), items[1..])
  {
    hide Unpack;
    if |items| == 1 {
      assert items[..0] == [] && items[1..] == [];
    } else {
      var n := |items| - 1;
      UnpackAllFirst(lens, items[..n]);
      assert items[..n][1..] == items[1..][..n - 1];
    }
  }

  lemma {:induction false} UnpackGrows(lens: seq<nat>, items: seq<Item>)
    ensures |UnpackAll(lens, items)| >= |lens| + |items|
  {
    if items != [] {
      UnpackGrows(lens, items[..|items| - 1]);
    }
  }

  /** Decoding a length. */
  lemma LengthsOne(cl: seq<nat>, n: nat, bits: seq<bool>, pos: nat, lens: seq<nat>, s: nat)
    requires Symbol(cl, bits, pos) == Some(s) && s < 16 && |lens| < n
    ensures Lengths(cl, n, bits, pos, lens) == Lengths(cl, n, bits, pos + cl[s], lens + [s])
  {
    hide Symbol, Field, Repeat;
  }

  /** Decoding a run. */
  lemma LengthsRun(cl: seq<nat>, n: nat, bits: seq<bool>, pos: nat, lens: seq<nat>, s: nat, v: nat)
    requires Symbol(cl, bits, pos) == Some(s) && 16 <= s <= 18 && |lens| < n && (s == 16 ==> lens != [])
    requires Field(bits, pos + cl[s], RunBits(s)) == Some(v)
    ensures Lengths(cl, n, bits, pos, lens)
         == Lengths(cl, n, bits, pos + cl[s] + RunBits(s),
             lens + Repeat(if s == 16 then lens[|lens| - 1] else 0, v + RunBase(s)))
  {
    hide Symbol, Field, Repeat, RunBits, RunBase;
  }

  /** Decoding one entry. */
  lemma LengthsItem(cl: seq<nat>, n: nat, item: Item, bits: seq<bool>, pos: nat, lens: seq<nat>)
    requires Feasible(cl) && Used(cl, item.sym) && ItemOk(item) && |lens| < n && (item.sym == 16 ==> lens != [])
    requires At(bits, pos, ItemBits(cl, item))
    ensures Lengths(cl, n, bits, pos, lens) == Lengths(cl, n, bits, pos + |ItemBits(cl, item)|, Unpack(lens, item))
  {
    hide *;
    var s := item.sym;
    ItemRead(cl, item, bits, pos);
    UnpackIs(lens, item);
    if s < 16 {
      LengthsOne(cl, n, bits, pos, lens, s);
    } else {
      LengthsRun(cl, n, bits, pos, lens, s, item.extra);
    }
  }

  lemma UnpackIs(lens: seq<nat>, item: Item)
    requires item.sym == 16 ==> lens != []
    ensures item.sym < 16 ==> Unpack(lens, item) == lens + [item.sym]
    ensures 16 <= item.sym ==>
      Unpack(lens, item)
      == lens + Repeat(if item.sym == 16 then lens[|lens| - 1] else 0, item.extra + RunBase(item.sym))
  {
    hide Repeat, RunBase;
  }

  /** The symbol of an entry and its extra bits are read back. */
  lemma ItemRead(cl: seq<nat>, item: Item, bits: seq<bool>, pos: nat)
    requires Feasible(cl) && Used(cl, item.sym) && ItemOk(item) && At(bits, pos, ItemBits(cl, item))
    ensures item.sym < |cl| && item.sym <= 18 && Symbol(cl, bits, pos) == Some(item.sym)
    ensures item.sym < 16 ==> pos + |ItemBits(cl, item)| == pos + cl[item.sym]
    ensures 16 <= item.sym ==>
      && Field(bits, pos + cl[item.sym], RunBits(item.sym)) == Some(item.extra)
      && pos + |ItemBits(cl, item)| == pos + cl[item.sym] + RunBits(item.sym)
  {
    var s, e := item.sym, item.extra;
    hide CodeBits, NatBits, Feasible, At, Low, Symbol, Field, RunBits, Pow2;
    AtAppend(bits, pos, CodeBits(cl, s), NatBits(e, ExtraBits(s)));
    SymbolIs(cl, s, bits, pos);
    if s >= 16 {
      FieldOf(bits, pos + cl[s], e, RunBits(s));
      LowSmall(e, RunBits(s));
    }
  }

  /** The decoder's expansion of the packed entries gives back the list. */
  lemma {:induction false} LengthsRoundTrip(cl: seq<nat>, n: nat, items: seq<Item>, bits: seq<bool>, pos: nat,
                                            lens: seq<nat>)
    requires Feasible(cl) && ItemsSendable(cl, items) && ItemsOk(lens, items) && |UnpackAll(lens, items)| == n
    requires At(bits, pos, ItemsBits(cl, items))
    ensures Lengths(cl, n, bits, pos, lens) == Some((UnpackAll(lens, items), pos + |ItemsBits(cl, items)|))
    decreases |items|
  {
    hide ItemBits, ItemsBits, Lengths, Unpack, UnpackAll, Feasible, At, ItemsOk;
    if items == [] {
      NothingLeft(cl, n, bits, pos, lens);
      assert items == [];
    } else {
      var item, rest := items[0], items[1..];
      ItemsBitsFirst(cl, items);
      UnpackAllFirst(lens, items);
      UnpackGrows(lens, items);
      ItemsOkRest(lens, items);
      AtAppend(bits, pos, ItemBits(cl, item), ItemsBits(cl, rest));
      LengthsItem(cl, n, item, bits, pos, lens);
      LengthsRoundTrip(cl, n, rest, bits, pos + |ItemBits(cl, item)|, Unpack(lens, item));
    }
  }

  lemma NothingLeft(cl: seq<nat>, n: nat, bits: seq<bool>, pos: nat, lens: seq<nat>)
    requires n == |UnpackAll(lens, [])|
    ensures Lengths(cl, n, bits, pos, lens) == Some((UnpackAll(lens, []), pos + |ItemsBits(cl, [])|))
  {
  }

  lemma ItemsOkRest(lens: seq<nat>, items: seq<Item>)
    requires ItemsOk(lens, items) && items != []
    ensures ItemOk(items[0]) && (items[0].sym == 16 ==> lens != [])
    ensures ItemsOk(Unpack(lens, items[0]), items[1..])
  {
    assert |Unpack(lens, items[0])| > 0;
  }

  // ----- the runs of RFC 1951 section 3.2.7 -----

  function Bit(b: bool): nat {
    if b then 1 else 0
  }

  lemma BitsFirst(bits: seq<bool>, p: nat, n: nat)
    requires p + n <= |bits|
    ensures BitsNat(bits[p..p + n]) == if n == 0 then 0 else Bit(bits[p]) + 2 * BitsNat(bits[p + 1..p + n])
  {
    if n > 0 {
      assert bits[p..p + n][1..] == bits[p + 1..p + n];
    }
  }

  /** What three bits say. */
  function Three(bits: seq<bool>, p: nat): nat
    requires p + 3 <= |bits|
  {
    Bit(bits[p]) + 2 * Bit(bits[p + 1]) + 4 * Bit(bits[p + 2])
  }

  lemma FieldTwo(bits: seq<bool>, p: nat)
    ensures Field(bits, p, 2) == if p + 2 > |bits| then None else Some(Bit(bits[p]) + 2 * Bit(bits[p + 1]))
  {
    hide Bit, BitsNat;
    if p + 2 <= |bits| {
      BitsFirst(bits, p, 2);
      BitsFirst(bits, p + 1, 1);
      BitsFirst(bits, p + 2, 0);
    }
  }

  lemma ThreeIs(bits: seq<bool>, p: nat, n: nat)
    requires p + 3 + n <= |bits|
    ensures BitsNat(bits[p..p + 3 + n]) == Three(bits, p) + 8 * BitsNat(bits[p + 3..p + 3 + n])
  {
    hide Bit, BitsNat;
    BitsFirst(bits, p, 3 + n);
    BitsFirst(bits, p + 1, 2 + n);
    BitsFirst(bits, p + 2, 1 + n);
  }

  lemma FieldThree(bits: seq<bool>, p: nat)
    ensures Field(bits, p, 3) == if p + 3 > |bits| then None else Some(Three(bits, p))
  {
    hide Three, BitsNat;
    if p + 3 <= |bits| {
      ThreeIs(bits, p, 0);
      BitsFirst(bits, p + 3, 0);
    }
  }

  lemma FieldSeven(bits: seq<bool>, p: nat)
    ensures Field(bits, p, 7)
         == if p + 7 > |bits| then None
            else Some(Three(bits, p) + 8 * Three(bits, p + 3) + 64 * Bit(bits[p + 6]))
  {
    hide Bit, Three, BitsNat;
    if p + 7 <= |bits| {
      ThreeIs(bits, p, 4);
      ThreeIs(bits, p + 3, 1);
      BitsFirst(bits, p + 6, 1);
      BitsFirst(bits, p + 7, 0);
    }
  }

  lemma RunNumbers()
    ensures RunBits(16) == 2 && RunBits(17) == 3 && RunBits(18) == 7
    ensures RunBase(16) == RunBase(17) == 3 && RunBase(18) == 11
  {
  }

  lemma RunFirst(cl: seq<nat>, n: nat, bits: seq<bool>, pos: nat, lens: seq<nat>, s: nat)
    requires Symbol(cl, bits, pos) == Some(s) && 16 <= s <= 18 && |lens| < n
    ensures (s == 16 && lens == []) || Field(bits, pos + cl[s], RunBits(s)).None? ==>
      Lengths(cl, n, bits, pos, lens).None?
  {
    hide Symbol, Field, Repeat, RunBits, RunBase;
  }

  /** Symbol 16 takes two bits, x and y, and repeats the last length 3 + x + 2y times; there must be one. */
  lemma RunOfLast(cl: seq<nat>, n: nat, bits: seq<bool>, pos: nat, lens: seq<nat>)
    requires Symbol(cl, bits, pos) == Some(16) && |lens| < n
    ensures var p := pos + cl[16];
      Lengths(cl, n, bits, pos, lens)
      == if lens == [] || p + 2 > |bits| then None
         else Lengths(cl, n, bits, p + 2, lens + Repeat(lens[|lens| - 1], 3 + Bit(bits[p]) + 2 * Bit(bits[p + 1])))
  {
    hide Symbol, Lengths, Field, Repeat, Bit, Three, RunBits, RunBase, At, CodeBits;
    var p := pos + cl[16];
    RunNumbers();
    FieldTwo(bits, p);
    RunFirst(cl, n, bits, pos, lens, 16);
    if lens != [] && p + 2 <= |bits| {
      LengthsRun(cl, n, bits, pos, lens, 16, Bit(bits[p]) + 2 * Bit(bits[p + 1]));
    }
  }

  /** Symbol 17 takes three bits and stands for 3 zeros and as many more as they say. */
  lemma RunOfZeros(cl: seq<nat>, n: nat, bits: seq<bool>, pos: nat, lens: seq<nat>)
    requires Symbol(cl, bits, pos) == Some(17) && |lens| < n
    ensures var p := pos + cl[17];
      Lengths(cl, n, bits, pos, lens)
      == if p + 3 > |bits| then None else Lengths(cl, n, bits, p + 3, lens + Repeat(0, 3 + Three(bits, p)))
  {
    hide Symbol, Lengths, Field, Repeat, Bit, Three, RunBits, RunBase, At, CodeBits;
    var p := pos + cl[17];
    RunNumbers();
    FieldThree(bits, p);
    RunFirst(cl, n, bits, pos, lens, 17);
    if p + 3 <= |bits| {
      LengthsRun(cl, n, bits, pos, lens, 17, Three(bits, p));
    }
  }

  /** Symbol 18 takes seven bits and stands for 11 zeros and as many more as they say. */
  lemma LongRunOfZeros(cl: seq<nat>, n: nat, bits: seq<bool>, pos: nat, lens: seq<nat>)
    requires Symbol(cl, bits, pos) == Some(18) && |lens| < n
    ensures var p := pos + cl[18];
      Lengths(cl, n, bits, pos, lens)
      == if p + 7 > |bits| then None
         else Lengths(cl, n, bits, p + 7,
                lens + Repeat(0, 11 + Three(bits, p) + 8 * Three(bits, p + 3) + 64 * Bit(bits[p + 6])))
  {
    hide Symbol, Lengths, Field, Repeat, Bit, Three, RunBits, RunBase, At, CodeBits;
    var p := pos + cl[18];
    RunNumbers();
    FieldSeven(bits, p);
    RunFirst(cl, n, bits, pos, lens, 18);
    if p + 7 <= |bits| {
      LengthsRun(cl, n, bits, pos, lens, 18, Three(bits, p) + 8 * Three(bits, p + 3) + 64 * Bit(bits[p + 6]));
    }
  }
}
