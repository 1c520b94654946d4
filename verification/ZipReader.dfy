/** Finding a file of a ZIP archive by name: a binary search over the sorted index, or a scan of the central directory.
    */
module ZipReader {
  import opened Bits
  import opened Deflate
  import opened FileNames
  import opened NameIndex

  /** The lengths of an entry's name and comment have 16 bits. */
  datatype File = File(name: Name, comment: seq<byte>)

  type Entry = e: File | |e.name| < 0x1_0000 && |e.comment| < 0x1_0000 witness File([], [])

  datatype Located = Found(index: nat) | NotFound | InvalidParameter

  function Names(entries: seq<Entry>): (names: seq<Name>)
    ensures |names| == |entries|
  {
    seq(|entries|, i requires 0 <= i < |entries| => entries[i].name)
  }

  // ----- what is looked for -----

  predicate Same(a: seq<byte>, b: seq<byte>, caseSensitive: bool) {
    if caseSensitive then a == b else Folded(a) == Folded(b)
  }

  predicate Separator(c: byte) {
    c == 47 || c == 92 || c == 58
  }

  /** What follows the last separator. */
  function BaseName(name: Name): (base: Name)
    ensures |base| <= |name|
    decreases |name|
  {
    if name == [] || Separator(name[|name| - 1]) then [] else BaseName(name[..|name| - 1]) + [name[|name| - 1]]
  }

  predicate Matches(e: Entry, name: Name, comment: Option<seq<byte>>, ignorePath: bool, caseSensitive: bool) {
    && Same(name, if ignorePath then BaseName(e.name) else e.name, caseSensitive)
    && (comment.Some? && comment.value != [] ==> Same(comment.value, e.comment, caseSensitive))
  }

  /** The first entry from i on that matches. */
  function FirstMatch(entries: seq<Entry>, name: Name, comment: Option<seq<byte>>, ignorePath: bool,
                      caseSensitive: bool, i: nat): Located
    requires i <= |entries|
    decreases |entries| - i
  {
    if i == |entries| then NotFound
    else if Matches(entries[i], name, comment, ignorePath, caseSensitive) then Found(i)
    else FirstMatch(entries, name, comment, ignorePath, caseSensitive, i + 1)
  }

  /** The result of scanning the central directory. */
  function Scanned(entries: seq<Entry>, name: Name, comment: Option<seq<byte>>, ignorePath: bool,
                   caseSensitive: bool): Located
  {
    if |name| > 0xFFFF || (comment.Some? && |comment.value| > 0xFFFF) then InvalidParameter
    else FirstMatch(entries, name, comment, ignorePath, caseSensitive, 0)
  }

  /** Some entry's name is the key, but for case. */
  ghost predicate HasKey(entries: seq<Entry>, name: Name) {
    exists i :: 0 <= i < |entries| && Folded(entries[i].name) == Folded(Key(name))
  }

  /** The binary search found an entry with this key, or there is none. */
  ghost predicate Searched(entries: seq<Entry>, name: Name, r: Located) {
    match r
    case Found(i) => i < |entries| && Folded(entries[i].name) == Folded(Key(name))
    case NotFound => !HasKey(entries, name)
    case InvalidParameter => false
  }

  lemma {:induction false} FirstMatchIs(entries: seq<Entry>, name: Name, comment: Option<seq<byte>>, ignorePath: bool,
                                        caseSensitive: bool, i: nat)
    requires i <= |entries|
    ensures var r := FirstMatch(entries, name, comment, ignorePath, caseSensitive, i);
      match r
      case Found(k) => i <= k < |entries| && Matches(entries[k], name, comment, ignorePath, caseSensitive)
        && forall j :: i <= j < k ==> !Matches(entries[j], name, comment, ignorePath, caseSensitive)
      case NotFound => forall j :: i <= j < |entries| ==> !Matches(entries[j], name, comment, ignorePath, caseSensitive)
      case InvalidParameter => false
    decreases |entries| - i
  {
    hide Matches;
    if i < |entries| && !Matches(entries[i], name, comment, ignorePath, caseSensitive) {
      FirstMatchIs(entries, name, comment, ignorePath, caseSensitive, i + 1);
    }
  }

  /** For names the format can hold, the search finds an entry exactly when the scan does. */
  lemma SearchAgrees(entries: seq<Entry>, name: Name, r: Located)
    requires Searched(entries, name, r) && |name| <= 0xFFFF
    ensures r.Found? <==> Scanned(entries, name, None, false, false).Found?
    ensures r.NotFound? <==> Scanned(entries, name, None, false, false).NotFound?
    ensures Distinct(entries) ==> r == Scanned(entries, name, None, false, false)
  {
    hide Folded;
    FirstMatchIs(entries, name, None, false, false, 0);
  }

  /** The scan finds the first entry whose name is the one sought but for the case of ASCII letters, if there is one. */
  lemma ScanFinds(entries: seq<Entry>, name: Name)
    requires |name| <= 0xFFFF
    ensures match Scanned(entries, name, None, false, false)
      case Found(k) => k < |entries| && Alike(entries[k].name, name)
        && forall j :: 0 <= j < k ==> !Alike(entries[j].name, name)
      case NotFound => forall j :: 0 <= j < |entries| ==> !Alike(entries[j].name, name)
      case InvalidParameter => false
  {
    hide Folded, Alike;
    forall j | 0 <= j < |entries| ensures Folded(name) == Folded(entries[j].name) <==> Alike(entries[j].name, name) {
      FoldedAlike(entries[j].name, name);
    }
    FirstMatchIs(entries, name, None, false, false, 0);
  }

  /** The search finds such an entry, if there is one. */
  lemma SearchFinds(entries: seq<Entry>, name: Name, r: Located)
    requires |name| < 0x1_0000_0000
    ensures Searched(entries, name, r) <==>
      match r
      case Found(i) => i < |entries| && Alike(entries[i].name, name)
      case NotFound => forall i :: 0 <= i < |entries| ==> !Alike(entries[i].name, name)
      case InvalidParameter => false
  {
    assert Key(name) == name;
    hide Folded, Alike, Key;
    forall i | 0 <= i < |entries| ensures Folded(entries[i].name) == Folded(name) <==> Alike(entries[i].name, name) {
      FoldedAlike(entries[i].name, name);
    }
  }

  /** No two names are the same but for case. */
  ghost predicate Distinct(entries: seq<Entry>) {
    forall i, j :: 0 <= i < j < |entries| ==> Folded(entries[i].name) != Folded(entries[j].name)
  }

  /** The two disagree exactly on names of 2^32 bytes or more whose length, cut to 32 bits, leaves the name of an
      entry. */
  lemma AgreesExactly(entries: seq<Entry>, name: Name, r: Located)
    requires Searched(entries, name, r)
    ensures (r.Found? <==> Scanned(entries, name, None, false, false).Found?)
      <==> !(|name| >= 0x1_0000_0000 && HasKey(entries, name))
  {
    hide Folded;
    if |name| <= 0xFFFF {
      SearchAgrees(entries, name, r);
    } else if |name| < 0x1_0000_0000 {
      forall i | 0 <= i < |entries| ensures Folded(entries[i].name) != Folded(Key(name)) {
        assert |entries[i].name| < 0x1_0000;
        assert |Folded(entries[i].name)| != |Folded(Key(name))|;
      }
    }
  }

  /** Such a name: 2^32 bytes are taken for none. */
  lemma LongNameFound(name: Name, r: Located)
    requires |name| == 0x1_0000_0000 && Searched([File([], [])], name, r)
    ensures r == Found(0) && Scanned([File([], [])], name, None, false, false) == InvalidParameter
  {
    assert Key(name) == [];
    var entries: seq<Entry> := [File([], [])];
    assert Folded(entries[0].name) == Folded(Key(name));
  }

  // ----- the binary search -----

  function Ranked(names: seq<Name>, a: seq<nat>, k: nat): Name
    requires k < |a| && AllFiles(names, a)
  {
    Folded(names[a[k]])
  }

  /** The key is not outside the places from l to h. A key too long to be a name may be looked for anywhere. */
  ghost predicate Narrowed(names: seq<Name>, a: seq<nat>, key: Name, l: int, h: int) {
    AllFiles(names, a) && (|key| < 0x8000_0000 ==>
      (forall k :: 0 <= k < l && k < |a| ==> Below(Ranked(names, a, k), key))
      && (forall k :: h < k < |a| && 0 <= k ==> Below(key, Ranked(names, a, k))))
  }

  lemma NarrowLow(names: seq<Name>, a: seq<nat>, key: Name, l: int, h: int, m: nat)
    requires Narrowed(names, a, key, l, h) && Sorted(names, a) && m < |a|
    requires |key| < 0x8000_0000 ==> Below(Ranked(names, a, m), key)
    ensures Narrowed(names, a, key, m + 1, h)
  {
    if |key| < 0x8000_0000 {
      hide Below, Folded;
      forall k | 0 <= k < m + 1 && k < |a| ensures Below(Ranked(names, a, k), key) {
        if k < m {
          assert Le(names, a[k], a[m]);
          BelowTotal(Ranked(names, a, k), Ranked(names, a, m));
          if Ranked(names, a, k) != Ranked(names, a, m) {
            BelowTransitive(Ranked(names, a, k), Ranked(names, a, m), key);
          }
        }
      }
    }
  }

  lemma NarrowHigh(names: seq<Name>, a: seq<nat>, key: Name, l: int, h: int, m: nat)
    requires Narrowed(names, a, key, l, h) && Sorted(names, a) && m < |a|
    requires |key| < 0x8000_0000 ==> Below(key, Ranked(names, a, m))
    ensures Narrowed(names, a, key, l, m - 1)
  {
    if |key| < 0x8000_0000 {
      hide Below, Folded;
      forall k | m - 1 < k < |a| && 0 <= k ensures Below(key, Ranked(names, a, k)) {
        if m < k {
          assert Le(names, a[m], a[k]);
          BelowTotal(Ranked(names, a, m), Ranked(names, a, k));
          if Ranked(names, a, k) != Ranked(names, a, m) {
            BelowTransitive(key, Ranked(names, a, m), Ranked(names, a, k));
          }
        }
      }
    }
  }

  /** No place is left: the key is not there. */
  lemma NowhereLeft(entries: seq<Entry>, a: seq<nat>, name: Name, l: int, h: int)
    requires Narrowed(Names(entries), a, Folded(Key(name)), l, h) && h < l
    requires forall i :: 0 <= i < |entries| ==> i in a
    ensures Searched(entries, name, NotFound)
  {
    var key := Folded(Key(name));
    hide Folded, Below, Key;
    forall i | 0 <= i < |entries| ensures Folded(entries[i].name) != key {
      assert i in a;
      var k :| 0 <= k < |a| && a[k] == i;
      assert Ranked(Names(entries), a, k) == Folded(entries[i].name);
      BelowIrreflexive(key);
      assert |entries[i].name| < 0x1_0000;
      assert |Folded(entries[i].name)| < 0x1_0000;
    }
  }

  lemma CompareMeans(l: Name, key: Name, comp: int)
    requires comp != 0 && (comp == 0 <==> Folded(l) == key)
    requires |key| < 0x8000_0000 ==> (comp < 0 <==> Below(Folded(l), key))
    ensures |key| < 0x8000_0000 ==> if comp < 0 then Below(Folded(l), key) else Below(key, Folded(l))
  {
    hide Folded;
    BelowTotal(Folded(l), key);
  }

  /** Looks for a name in the sorted index. */
  method BinarySearch(entries: seq<Entry>, indices: array<nat>, name: Name) returns (r: Located)
    requires Indexed(entries, indices[..])
    ensures Searched(entries, name, r)
  {
    hide *;
    ghost var names, key, a := Names(entries), Folded(Key(name)), indices[..];
    IndexedMeans(entries, a);
    var size: nat := indices.Length;
    var l, h := 0, size - 1;
    NothingNarrowed(names, a, key, l, h);
    while l <= h
      invariant 0 <= l && h < size && Narrowed(names, a, key, l, h)
      decreases h - l + 1
    {
      var m := l + (h - l) / 2;
      var file := indices[m];
      assert file == a[m];
      EntryName(entries, a, m);
      var comp := FilenameCompare(entries[file].name, name);
      KeyLength(name);
      if comp == 0 {
        FoundMeans(entries, name, file);
        return Found(file);
      }
      CompareMeans(entries[file].name, key, comp);
      if comp < 0 {
        NarrowLow(names, a, key, l, h, m);
        l := m + 1;
      } else {
        NarrowHigh(names, a, key, l, h, m);
        h := m - 1;
      }
    }
    NowhereLeft(entries, a, name, l, h);
    return NotFound;
  }

  lemma KeyLength(name: Name)
    ensures |Folded(Key(name))| == |Key(name)|
  {
  }

  lemma FoundMeans(entries: seq<Entry>, name: Name, i: nat)
    requires i < |entries| && Folded(entries[i].name) == Folded(Key(name))
    ensures Searched(entries, name, Found(i))
  {
  }

  lemma NothingNarrowed(names: seq<Name>, a: seq<nat>, key: Name, l: int, h: int)
    requires AllFiles(names, a) && l == 0 && h == |a| - 1
    ensures Narrowed(names, a, key, l, h)
  {
  }

  lemma EntryName(entries: seq<Entry>, a: seq<nat>, m: nat)
    requires AllFiles(Names(entries), a) && m < |a|
    ensures a[m] < |entries| && Ranked(Names(entries), a, m) == Folded(entries[a[m]].name)
    ensures |entries[a[m]].name| < 0x1_0000
  {
    hide Folded;
  }

  function Counting(n: nat): (s: seq<nat>)
    ensures |s| == n && forall i :: 0 <= i < n ==> s[i] == i
  {
    seq(n, i => i)
  }

  /** The list has every entry once, in the order of the names. */
  ghost predicate Indexed(entries: seq<Entry>, a: seq<nat>) {
    Sorted(Names(entries), a) && multiset(a) == multiset(Counting(|entries|))
  }

  lemma IndexedMeans(entries: seq<Entry>, a: seq<nat>)
    requires Indexed(entries, a)
    ensures Sorted(Names(entries), a) && AllFiles(Names(entries), a) && forall i :: 0 <= i < |entries| ==> i in a
  {
    hide Sorted;
    var c := Counting(|entries|);
    forall k | 0 <= k < |a| ensures a[k] < |entries| {
      assert a[k] in multiset(a);
      assert a[k] in multiset(c);
    }
    forall i | 0 <= i < |entries| ensures i in a {
      assert c[i] in multiset(c);
      assert i in multiset(a);
    }
  }

  // ----- the scan -----

  lemma BaseNameStep(base: Name, p: Name, c: byte, s: Name)
    requires base == BaseName(p + [c]) + s
    ensures base == if Separator(c) then s else BaseName(p) + ([c] + s)
  {
    hide *;
    BaseNameOf(p, c);
    assert [] + s == s;
    assert (BaseName(p) + [c]) + s == BaseName(p) + ([c] + s);
  }

  lemma BaseNameOf(name: Name, c: byte)
    ensures BaseName(name + [c]) == if Separator(c) then [] else BaseName(name) + [c]
  {
    hide Separator;
    assert (name + [c])[..|name|] == name;
  }

  /** Where the last part of a path starts. */
  method PathEnd(name: Name) returns (ofs: nat)
    ensures ofs <= |name| && BaseName(name) == name[ofs..]
  {
    ofs := |name|;
    assert name[..|name|] == name;
    while ofs > 0
      invariant ofs <= |name| && BaseName(name) == BaseName(name[..ofs]) + name[ofs..]
    {
      hide BaseName;
      assert name[..ofs] == name[..ofs - 1] + [name[ofs - 1]];
      assert name[ofs - 1..] == [name[ofs - 1]] + name[ofs..];
      BaseNameStep(BaseName(name), name[..ofs - 1], name[ofs - 1], name[ofs..]);
      if name[ofs - 1] == 47 || name[ofs - 1] == 92 || name[ofs - 1] == 58 {
        return;
      }
      ofs := ofs - 1;
    }
  }

  class Reader {
    const entries: seq<Entry>
    const sorting: bool
    const sortedOffsets: array<nat>

    /** Lists the entries in the order of the directory, and sorts the list unless told not to. */
    constructor (entries: seq<Entry>, doNotSort: bool)
      ensures Valid() && this.entries == entries && sorting == !doNotSort
      ensures fresh(sortedOffsets)
    {
      this.entries := entries;
      sorting := !doNotSort;
      sortedOffsets := new nat[if doNotSort then 0 else |entries|](i => i);
      new;
      hide *;
      if !doNotSort {
        assert sortedOffsets[..] == Counting(|entries|);
        CountingFiles(entries);
        SortByFilename(Names(entries), sortedOffsets);
      }
      ValidIs();
    }

    /** The index, if there is one, is complete and sorted. */
    ghost predicate Valid()
      reads this, sortedOffsets
    {
      sorting ==> Indexed(entries, sortedOffsets[..])
    }

    lemma ValidIs()
      requires sorting ==> (Sorted(Names(entries), sortedOffsets[..])
          && multiset(sortedOffsets[..]) == multiset(Counting(|entries|)))
      ensures Valid()
    {
      hide Sorted;
    }

    /** Finds a file by name, and comment if one is given. */
    method LocateFile(name: Name, comment: Option<seq<byte>>, ignorePath: bool, caseSensitive: bool)
      returns (r: Located)
      requires Valid()
      ensures if sorting && !ignorePath && !caseSensitive && comment.None? && entries != []
        then Searched(entries, name, r) else r == Scanned(entries, name, comment, ignorePath, caseSensitive)
    {
      if sorting && !ignorePath && !caseSensitive && comment.None? && sortedOffsets.Length > 0 {
        r := BinarySearch(entries, sortedOffsets, name);
      } else {
        r := Scan(name, comment, ignorePath, caseSensitive);
      }
    }

    /** Goes through the whole directory. */
    method Scan(name: Name, comment: Option<seq<byte>>, ignorePath: bool, caseSensitive: bool) returns (r: Located)
      ensures r == Scanned(entries, name, comment, ignorePath, caseSensitive)
    {
      var nameLen := |name|;
      if nameLen > 0xFFFF {
        return InvalidParameter;
      }
      var commentLen := if comment.Some? then |comment.value| else 0;
      if commentLen > 0xFFFF {
        return InvalidParameter;
      }
      hide *;
      for i := 0 to |entries|
        invariant FirstMatch(entries, name, comment, ignorePath, caseSensitive, 0)
               == FirstMatch(entries, name, comment, ignorePath, caseSensitive, i)
      {
        var hit := Check(entries[i], name, comment, ignorePath, caseSensitive);
        FirstMatchStep(entries, name, comment, ignorePath, caseSensitive, i);
        if hit {
          return Found(i);
        }
      }
      return NotFound;
    }
  }

  lemma FirstMatchStep(entries: seq<Entry>, name: Name, comment: Option<seq<byte>>, ignorePath: bool,
                       caseSensitive: bool, i: nat)
    requires i < |entries|
    ensures FirstMatch(entries, name, comment, ignorePath, caseSensitive, i)
      == if Matches(entries[i], name, comment, ignorePath, caseSensitive) then Found(i)
         else FirstMatch(entries, name, comment, ignorePath, caseSensitive, i + 1)
    ensures FirstMatch(entries, name, comment, ignorePath, caseSensitive, |entries|) == NotFound
  {
    hide Matches;
  }

  lemma CountingFiles(entries: seq<Entry>)
    ensures AllFiles(Names(entries), Counting(|entries|))
  {
  }

  /** One entry of the scan. */
  method Check(e: Entry, name: Name, comment: Option<seq<byte>>, ignorePath: bool, caseSensitive: bool)
    returns (hit: bool)
    ensures hit == Matches(e, name, comment, ignorePath, caseSensitive)
  {
    var filename := e.name;
    if |filename| < |name| {
      return false;
    }
    if comment.Some? && |comment.value| != 0 {
      if |e.comment| != |comment.value| {
        return false;
      }
      var equal := StringEqual(comment.value, e.comment, |e.comment|, caseSensitive);
      assert comment.value[..|e.comment|] == comment.value && e.comment[..|e.comment|] == e.comment;
      if !equal {
        return false;
      }
    }
    if ignorePath && |filename| != 0 {
      var ofs := PathEnd(filename);
      filename := filename[ofs..];
    }
    if |filename| != |name| {
      return false;
    }
    assert name[..|filename|] == name && filename[..|filename|] == filename;
    hit := StringEqual(name, filename, |filename|, caseSensitive);
  }
}
