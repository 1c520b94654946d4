/** Heapsort of a list of file indices by name. */
module NameIndex {
  import opened FileNames

  // ----- the order of the files -----

  /** File i's name does not come after file j's. */
  ghost predicate Le(names: seq<Name>, i: nat, j: nat) {
    i < |names| && j < |names| && !Below(Folded(names[j]), Folded(names[i]))
  }

  lemma LeReflexive(names: seq<Name>, i: nat)
    requires i < |names|
    ensures Le(names, i, i)
  {
    BelowIrreflexive(Folded(names[i]));
  }

  lemma LeTransitive(names: seq<Name>, i: nat, j: nat, k: nat)
    requires Le(names, i, j) && Le(names, j, k)
    ensures Le(names, i, k)
  {
    hide Below, Folded;
    var a, b, c := Folded(names[i]), Folded(names[j]), Folded(names[k]);
    if Below(c, a) {
      BelowTotal(a, b);
      if a != b {
        BelowTransitive(c, a, b);
      }
    }
  }

  lemma LeTotal(names: seq<Name>, i: nat, j: nat)
    requires i < |names| && j < |names|
    ensures Le(names, i, j) || Le(names, j, i)
    ensures Below(Folded(names[i]), Folded(names[j])) <==> !Le(names, j, i)
  {
    hide Below, Folded;
    var a, b := Folded(names[i]), Folded(names[j]);
    if Below(a, b) && Below(b, a) {
      BelowTransitive(a, b, a);
      BelowIrreflexive(a);
    }
  }

  // ----- heaps -----

  function Parent(k: nat): (p: nat)
    requires 0 < k
    ensures p < k
  {
    (k - 1) / 2
  }

  /** From lo on, no file comes after its parent. */
  ghost predicate Heap(names: seq<Name>, a: seq<nat>, lo: nat, end: nat) {
    end <= |a| && forall k :: 0 < k < end && lo <= Parent(k) ==> Le(names, a[k], a[Parent(k)])
  }

  /** The same, but the file at root may be too early. */
  ghost predicate HeapBut(names: seq<Name>, a: seq<nat>, lo: nat, end: nat, root: nat) {
    && lo <= root < end <= |a|
    && (forall k :: 0 < k < end && lo <= Parent(k) && Parent(k) != root ==> Le(names, a[k], a[Parent(k)]))
    && (lo < root && lo <= Parent(root)
        ==> forall k :: 0 < k < end && Parent(k) == root ==> Le(names, a[k], a[Parent(root)]))
  }

  ghost predicate AllFiles(names: seq<Name>, a: seq<nat>) {
    forall k :: 0 <= k < |a| ==> a[k] < |names|
  }

  function Swapped(a: seq<nat>, i: nat, j: nat): (b: seq<nat>)
    requires i < |a| && j < |a|
    ensures |b| == |a| && multiset(b) == multiset(a)
  {
    a[i := a[j]][j := a[i]]
  }

  lemma Children(k: nat, root: nat)
    requires 0 < k
    ensures Parent(k) == root <==> k == 2 * root + 1 || k == 2 * root + 2
  {
  }

  /** Nothing below the root is out of order: the heap is whole. */
  lemma HeapWhole(names: seq<Name>, a: seq<nat>, lo: nat, end: nat, root: nat)
    requires HeapBut(names, a, lo, end, root)
    requires forall k :: 0 < k < end && Parent(k) == root ==> Le(names, a[k], a[root])
    ensures Heap(names, a, lo, end)
  {
    hide Le, Parent;
  }

  /** Moving the later child up leaves only its old place in doubt. */
  lemma HeapDown(names: seq<Name>, a: seq<nat>, lo: nat, end: nat, root: nat, child: nat)
    requires HeapBut(names, a, lo, end, root) && AllFiles(names, a)
    requires 0 < child < end && Parent(child) == root && !Le(names, a[child], a[root])
    requires forall k :: 0 < k < end && Parent(k) == root ==> Le(names, a[k], a[child])
    ensures HeapBut(names, Swapped(a, root, child), lo, end, child)
  {
    LeTotal(names, a[root], a[child]);
    hide Le, Parent;
    var b := Swapped(a, root, child);
    forall k | 0 < k < end && lo <= Parent(k) && Parent(k) != child ensures Le(names, b[k], b[Parent(k)]) {
      if k == child {
      } else if k == root {
      } else if Parent(k) == root {
      } else {
      }
    }
    forall k | 0 < k < end && Parent(k) == child ensures Le(names, b[k], b[Parent(child)]) {
      assert Le(names, a[k], a[child]);
    }
  }

  /** The first file of a heap is the last in order. */
  lemma {:induction false} HeapTop(names: seq<Name>, a: seq<nat>, end: nat, k: nat)
    requires Heap(names, a, 0, end) && k < end && AllFiles(names, a)
    ensures Le(names, a[k], a[0])
    decreases k
  {
    if k == 0 {
      LeReflexive(names, a[0]);
    } else {
      HeapTop(names, a, end, Parent(k));
      LeTransitive(names, a[k], a[Parent(k)], a[0]);
    }
  }

  lemma HeapStart(names: seq<Name>, a: seq<nat>, start: nat, end: nat)
    requires start < end <= |a| && Heap(names, a, start + 1, end)
    ensures HeapBut(names, a, start, end, start)
  {
    hide Le, Parent;
  }

  lemma HeapLeaf(names: seq<Name>, a: seq<nat>, lo: nat, end: nat, root: nat)
    requires HeapBut(names, a, lo, end, root) && end <= 2 * root + 1
    ensures Heap(names, a, lo, end)
  {
    hide Le;
    HeapWhole(names, a, lo, end, root);
  }

  // ----- rearranging -----

  /** The same files before end, and the same list from there on. */
  ghost predicate Rearranged(a: seq<nat>, b: seq<nat>, end: nat) {
    |a| == |b| && end <= |a| && multiset(a[..end]) == multiset(b[..end]) && a[end..] == b[end..]
  }

  lemma RearrangedSame(a: seq<nat>, end: nat)
    requires end <= |a|
    ensures Rearranged(a, a, end)
  {
  }

  lemma RearrangedSwap(a: seq<nat>, b: seq<nat>, end: nat, i: nat, j: nat)
    requires Rearranged(a, b, end) && i < end && j < end
    ensures Rearranged(a, Swapped(b, i, j), end)
  {
    var c := Swapped(b, i, j);
    assert c[..end] == Swapped(b[..end], i, j);
    assert c[end..] == b[end..];
  }

  /** A rearranged list holds the same files. */
  lemma RearrangedMeans(a: seq<nat>, b: seq<nat>, end: nat)
    requires Rearranged(a, b, end)
    ensures |a| == |b| && multiset(a) == multiset(b)
    ensures forall k :: 0 <= k < end ==> b[k] in a[..end]
    ensures forall k :: end <= k < |a| ==> b[k] == a[k]
  {
    assert a == a[..end] + a[end..] && b == b[..end] + b[end..];
    forall k | 0 <= k < end ensures b[k] in a[..end] {
      assert b[..end][k] in multiset(b[..end]);
    }
    forall k | end <= k < |a| ensures b[k] == a[k] {
      assert a[end..][k - end] == b[end..][k - end];
    }
  }

  lemma FilesRearranged(names: seq<Name>, a: seq<nat>, b: seq<nat>, end: nat)
    requires Rearranged(a, b, end) && AllFiles(names, a)
    ensures AllFiles(names, b)
  {
    RearrangedMeans(a, b, end);
    hide Rearranged;
    forall k | 0 <= k < |b| ensures b[k] < |names| {
      if k < end {
        assert b[k] in a[..end];
      }
    }
  }

  // ----- the sort -----

  /** The child of root that is later in order. */
  method LaterChild(names: seq<Name>, indices: array<nat>, root: nat, end: nat) returns (child: nat)
    requires 2 * root + 1 < end <= indices.Length && AllFiles(names, indices[..])
    ensures 0 < child < end && Parent(child) == root
    ensures forall k :: 0 < k < end && Parent(k) == root ==> Le(names, indices[k], indices[child])
  {
    child := 2 * root + 1;
    assert indices[..][child] == indices[child];
    if child + 1 < end {
      assert indices[..][child + 1] == indices[child + 1];
      LeTotal(names, indices[child], indices[child + 1]);
      var less := FilenameLess(names[indices[child]], names[indices[child + 1]]);
      if less {
        child := child + 1;
      }
    }
    LeReflexive(names, indices[child]);
  }

  method NotLess(names: seq<Name>, indices: array<nat>, root: nat, child: nat) returns (notLess: bool)
    requires root < indices.Length && child < indices.Length && AllFiles(names, indices[..])
    ensures notLess == Le(names, indices[child], indices[root])
  {
    assert indices[..][root] == indices[root] && indices[..][child] == indices[child];
    LeTotal(names, indices[root], indices[child]);
    var less := FilenameLess(names[indices[root]], names[indices[child]]);
    notLess := !less;
  }

  method Swap(indices: array<nat>, i: nat, j: nat)
    requires i < indices.Length && j < indices.Length
    modifies indices
    ensures indices[..] == Swapped(old(indices[..]), i, j)
  {
    indices[i], indices[j] := indices[j], indices[i];
  }

  /** Lets the file at start sink to its place among the files before end. */
  method SiftDown(names: seq<Name>, indices: array<nat>, start: nat, end: nat)
    requires start < end <= indices.Length && AllFiles(names, indices[..])
    requires Heap(names, indices[..], start + 1, end)
    modifies indices
    ensures Heap(names, indices[..], start, end) && Rearranged(old(indices[..]), indices[..], end)
  {
    hide *;
    ghost var before := indices[..];
    var root := start;
    HeapStart(names, before, start, end);
    RearrangedSame(before, end);
    while 2 * root + 1 < end
      invariant root < end && HeapBut(names, indices[..], start, end, root)
      invariant Rearranged(before, indices[..], end) && AllFiles(names, indices[..])
      decreases end - root
    {
      ghost var a := indices[..];
      var child := LaterChild(names, indices, root, end);
      var notLess := NotLess(names, indices, root, child);
      if notLess {
        Settled(names, a, start, end, root, child);
        return;
      }
      HeapDown(names, a, start, end, root, child);
      RearrangedSwap(before, a, end, root, child);
      Swap(indices, root, child);
      FilesRearranged(names, before, indices[..], end);
      root := child;
    }
    HeapLeaf(names, indices[..], start, end, root);
  }

  lemma Settled(names: seq<Name>, a: seq<nat>, lo: nat, end: nat, root: nat, child: nat)
    requires HeapBut(names, a, lo, end, root) && 0 < child < end && Le(names, a[child], a[root])
    requires forall k :: 0 < k < end && Parent(k) == root ==> Le(names, a[k], a[child])
    ensures Heap(names, a, lo, end)
  {
    forall k | 0 < k < end && Parent(k) == root ensures Le(names, a[k], a[root]) {
      LeTransitive(names, a[k], a[child], a[root]);
    }
    hide Le, Parent;
    HeapWhole(names, a, lo, end, root);
  }

  /** From end on, every file has its final place. */
  ghost predicate SortedFrom(names: seq<Name>, a: seq<nat>, end: nat) {
    forall i, j :: 0 <= i < j < |a| && end <= j ==> Le(names, a[i], a[j])
  }

  lemma SortedRearranged(names: seq<Name>, a: seq<nat>, b: seq<nat>, end: nat)
    requires Rearranged(a, b, end) && SortedFrom(names, a, end)
    ensures SortedFrom(names, b, end)
  {
    RearrangedMeans(a, b, end);
    hide Le, Rearranged;
    forall i, j | 0 <= i < j < |b| && end <= j ensures Le(names, b[i], b[j]) {
      if i < end {
        var k :| 0 <= k < end && a[..end][k] == b[i];
        assert Le(names, a[k], a[j]);
      }
    }
  }

  /** An entry that no other before it exceeds goes to the end, where the rest is sorted. */
  lemma TopSorted(names: seq<Name>, a: seq<nat>, end: nat)
    requires 0 < end < |a| && AllFiles(names, a) && SortedFrom(names, a, end + 1)
    requires forall k :: 0 <= k <= end ==> Le(names, a[k], a[0])
    ensures SortedFrom(names, Swapped(a, end, 0), end)
  {
    hide Le;
    var b := Swapped(a, end, 0);
    forall i, j | 0 <= i < j < |b| && end <= j ensures Le(names, b[i], b[j]) {
      if j > end {
        assert b[j] == a[j];
      }
    }
  }

  /** The top of the heap goes to the end, which is its place. */
  lemma TopPlaced(names: seq<Name>, a: seq<nat>, end: nat)
    requires 0 < end < |a| && AllFiles(names, a) && Heap(names, a, 0, end + 1) && SortedFrom(names, a, end + 1)
    ensures SortedFrom(names, Swapped(a, end, 0), end) && Heap(names, Swapped(a, end, 0), 1, end)
    ensures Rearranged(a, Swapped(a, end, 0), |a|)
  {
    RearrangedSame(a, |a|);
    RearrangedSwap(a, a, |a|, end, 0);
    forall k | 0 <= k <= end ensures Le(names, a[k], a[0]) {
      HeapTop(names, a, end + 1, k);
    }
    TopSorted(names, a, end);
    hide Le, Rearranged, Parent, SortedFrom;
  }

  /** No file is left out of place. */
  ghost predicate Sorted(names: seq<Name>, a: seq<nat>) {
    forall i, j :: 0 <= i < j < |a| ==> Le(names, a[i], a[j])
  }

  /** Sorts the indices by name: first a heap is made, then its top taken off again and again. */
  method SortByFilename(names: seq<Name>, indices: array<nat>)
    requires AllFiles(names, indices[..])
    modifies indices
    ensures Sorted(names, indices[..]) && multiset(indices[..]) == multiset(old(indices[..]))
  {
    hide *;
    var size: nat := indices.Length;
    ghost var before := indices[..];
    if size <= 1 {
      ShortSorted(names, before);
      return;
    }
    MakeHeap(names, indices);
    FilesRearranged(names, before, indices[..], size);
    var end: nat := size - 1;
    NothingPlaced(names, indices[..]);
    while end > 0
      invariant end < size && AllFiles(names, indices[..]) && Rearranged(before, indices[..], size)
      invariant Heap(names, indices[..], 0, end + 1) && SortedFrom(names, indices[..], end + 1)
    {
      ghost var a := indices[..];
      TopPlaced(names, a, end);
      Swap(indices, end, 0);
      ghost var b := indices[..];
      FilesRearranged(names, a, b, size);
      SiftDown(names, indices, 0, end);
      SortedRearranged(names, b, indices[..], end);
      FilesRearranged(names, b, indices[..], end);
      RearrangedThrough(before, a, b, indices[..], end);
      end := end - 1;
    }
    AllPlaced(names, indices[..]);
    RearrangedMeans(before, indices[..], size);
  }

  /** Makes the list a heap, from the last parent back to the first file. */
  method MakeHeap(names: seq<Name>, indices: array<nat>)
    requires 2 <= indices.Length && AllFiles(names, indices[..])
    modifies indices
    ensures Heap(names, indices[..], 0, indices.Length) && Rearranged(old(indices[..]), indices[..], indices.Length)
  {
    hide *;
    ghost var before := indices[..];
    var size: nat := indices.Length;
    var start: nat := (size - 2) / 2;
    NoParents(names, before, start + 1);
    RearrangedSame(before, size);
    while true
      invariant start < size && AllFiles(names, indices[..]) && Heap(names, indices[..], start + 1, size)
      invariant Rearranged(before, indices[..], size)
      decreases start
    {
      ghost var a := indices[..];
      SiftDown(names, indices, start, size);
      RearrangedTwice(before, a, indices[..], size);
      if start == 0 {
        break;
      }
      FilesRearranged(names, a, indices[..], size);
      start := start - 1;
    }
  }

  lemma NoParents(names: seq<Name>, a: seq<nat>, start: nat)
    requires |a| <= 2 * start + 1
    ensures Heap(names, a, start, |a|)
  {
  }

  lemma NothingPlaced(names: seq<Name>, a: seq<nat>)
    ensures SortedFrom(names, a, |a|)
  {
  }

  lemma AllPlaced(names: seq<Name>, a: seq<nat>)
    requires SortedFrom(names, a, 1)
    ensures Sorted(names, a)
  {
    hide Le;
  }

  lemma ShortSorted(names: seq<Name>, a: seq<nat>)
    requires |a| <= 1
    ensures Sorted(names, a)
  {
  }

  lemma RearrangedTwice(a: seq<nat>, b: seq<nat>, c: seq<nat>, end: nat)
    requires Rearranged(a, b, end) && Rearranged(b, c, end)
    ensures Rearranged(a, c, end)
  {
  }

  lemma RearrangedThrough(a: seq<nat>, b: seq<nat>, c: seq<nat>, d: seq<nat>, end: nat)
    requires Rearranged(a, b, |a|) && Rearranged(b, c, |b|) && Rearranged(c, d, end)
    ensures Rearranged(a, d, |a|)
  {
    RearrangedMeans(a, b, |a|);
    RearrangedMeans(b, c, |b|);
    RearrangedMeans(c, d, end);
    assert a[..|a|] == a && d[..|a|] == d;
  }
}
