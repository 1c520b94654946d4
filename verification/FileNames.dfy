/** File names of a ZIP central directory, and their order regardless of the case of ASCII letters. */
module FileNames {
  import opened Bits

  type Name = seq<byte>

  function Lower(c: byte): byte {
    if 65 <= c <= 90 then c + 32 else c
  }

  function Folded(s: Name): (f: Name)
    ensures |f| == |s| && forall i :: 0 <= i < |s| ==> f[i] == Lower(s[i])
  {
    seq(|s|, i requires 0 <= i < |s| => Lower(s[i]))
  }

  /** An ASCII letter of either case. */
  predicate Letter(c: byte) {
    65 <= c <= 90 || 97 <= c <= 122
  }

  /** The same byte, or the same letter in the other case. */
  predicate AlikeBytes(a: byte, b: byte) {
    a == b || (Letter(a) && Letter(b) && (a == b + 32 || b == a + 32))
  }

  /** The same name but for the case of ASCII letters. */
  predicate Alike(a: Name, b: Name) {
    |a| == |b| && forall i :: 0 <= i < |a| ==> AlikeBytes(a[i], b[i])
  }

  lemma LowerAlike(a: byte, b: byte)
    ensures Lower(a) == Lower(b) <==> AlikeBytes(a, b)
  {
  }

  /** Names fold to the same exactly if they are alike. */
  lemma FoldedAlike(a: Name, b: Name)
    ensures Folded(a) == Folded(b) <==> Alike(a, b)
  {
    hide Lower, AlikeBytes;
    if |a| == |b| {
      forall i | 0 <= i < |a| ensures Folded(a)[i] == Folded(b)[i] <==> AlikeBytes(a[i], b[i]) {
        LowerAlike(a[i], b[i]);
      }
      if Alike(a, b) {
        assert Folded(a) == Folded(b);
      }
    }
  }

  /** Of the names alike, the folded one is that without upper-case letters. */
  lemma FoldedIs(a: Name, f: Name)
    ensures f == Folded(a) <==> Alike(a, f) && forall i :: 0 <= i < |f| ==> !(65 <= f[i] <= 90)
  {
    if Alike(a, f) && forall i :: 0 <= i < |f| ==> !(65 <= f[i] <= 90) {
      forall i | 0 <= i < |f| ensures f[i] == Folded(a)[i] {
        assert AlikeBytes(a[i], f[i]);
      }
    }
  }

  // ----- the order -----

  /** The order of dictionaries. */
  predicate Below(a: Name, b: Name)
    decreases |a|
  {
    b != [] && (a == [] || a[0] < b[0] || (a[0] == b[0] && Below(a[1..], b[1..])))
  }

  lemma {:induction false} BelowIrreflexive(a: Name)
    ensures !Below(a, a)
    decreases |a|
  {
    if a != [] {
      BelowIrreflexive(a[1..]);
    }
  }

  lemma {:induction false} BelowTransitive(a: Name, b: Name, c: Name)
    requires Below(a, b) && Below(b, c)
    ensures Below(a, c)
    decreases |a|
  {
    if a != [] && a[0] == b[0] == c[0] {
      BelowTransitive(a[1..], b[1..], c[1..]);
    }
  }

  lemma {:induction false} BelowTotal(a: Name, b: Name)
    ensures a == b || Below(a, b) || Below(b, a)
    decreases |a|
  {
    if a != [] && b != [] && a[0] == b[0] {
      BelowTotal(a[1..], b[1..]);
      assert a == [a[0]] + a[1..] && b == [b[0]] + b[1..];
    }
  }

  /** Names that share their first k bytes are ordered by what follows. */
  lemma {:induction false} BelowAt(a: Name, b: Name, k: nat)
    requires k <= |a| && k <= |b| && a[..k] == b[..k]
    ensures Below(a, b) == Below(a[k..], b[k..])
    ensures a == b <==> a[k..] == b[k..]
    decreases k
  {
    if k > 0 {
      assert a[0] == a[..k][0] == b[..k][0] == b[0];
      assert a[1..][..k - 1] == a[..k][1..] == b[..k][1..] == b[1..][..k - 1];
      assert a[1..][k - 1..] == a[k..] && b[1..][k - 1..] == b[k..];
      BelowAt(a[1..], b[1..], k - 1);
      assert a == [a[0]] + a[1..] && b == [b[0]] + b[1..];
    } else {
      assert a[0..] == a && b[0..] == b;
    }
  }

  lemma FoldedPrefix(a: Name, b: Name, k: nat)
    requires k < |a| && k < |b| && Folded(a)[..k] == Folded(b)[..k] && Lower(a[k]) == Lower(b[k])
    ensures Folded(a)[..k + 1] == Folded(b)[..k + 1]
  {
    assert Folded(a)[..k + 1] == Folded(a)[..k] + [Lower(a[k])];
    assert Folded(b)[..k + 1] == Folded(b)[..k] + [Lower(b[k])];
  }

  /** Where the names first differ decides; if they never do, the lengths do. */
  lemma Decided(a: Name, b: Name, k: nat)
    requires k <= |a| && k <= |b| && Folded(a)[..k] == Folded(b)[..k]
    requires k == |a| || k == |b| || Lower(a[k]) != Lower(b[k])
    ensures k < |a| && k < |b| ==> (Below(Folded(a), Folded(b)) <==> Lower(a[k]) < Lower(b[k]))
    ensures k == |a| || k == |b| ==> (Below(Folded(a), Folded(b)) <==> |a| < |b|)
    ensures Folded(a) == Folded(b) <==> k == |a| == |b|
  {
    BelowAt(Folded(a), Folded(b), k);
    hide Folded;
  }

  /** Whether l comes before r. */
  method FilenameLess(l: Name, r: Name) returns (less: bool)
    ensures less == Below(Folded(l), Folded(r))
  {
    hide *;
    var end := if |l| < |r| then |l| else |r|;
    var p: nat := 0;
    while p < end
      invariant p <= end && Folded(l)[..p] == Folded(r)[..p]
    {
      if Lower(l[p]) != Lower(r[p]) {
        break;
      }
      FoldedPrefix(l, r, p);
      p := p + 1;
    }
    Decided(l, r, p);
    less := if p == end then |l| < |r| else Lower(l[p]) < Lower(r[p]);
  }

  /** A difference of 32-bit lengths, read as a signed number. */
  function Difference(l: nat, r: nat): int
    requires l < 0x1_0000_0000 && r < 0x1_0000_0000
  {
    var d := (l - r) % 0x1_0000_0000;
    if d < 0x8000_0000 then d else d - 0x1_0000_0000
  }

  lemma DifferenceSign(l: nat, r: nat)
    requires l < 0x1_0000 && r < 0x1_0000_0000
    ensures Difference(l, r) == 0 <==> l == r
    ensures r < 0x8000_0000 ==> (Difference(l, r) < 0 <==> l < r)
  {
  }

  /** What the search compares with: the length is kept in 32 bits. */
  function Key(r: Name): Name {
    r[..|r| % 0x1_0000_0000]
  }

  /** Compares an entry's name with a key; a key of 2^31 bytes or more can come out on the wrong side. */
  method FilenameCompare(l: Name, r: Name) returns (comp: int)
    requires |l| < 0x1_0000
    ensures comp == 0 <==> Folded(l) == Folded(Key(r))
    ensures |Key(r)| < 0x8000_0000 ==> (comp < 0 <==> Below(Folded(l), Folded(Key(r))))
  {
    hide *;
    var rLen := |r| % 0x1_0000_0000;
    KeyIs(r);
    var end := if |l| < rLen then |l| else rLen;
    var p: nat := 0;
    while p < end
      invariant p <= end && Folded(l)[..p] == Folded(Key(r))[..p]
    {
      if Lower(l[p]) != Lower(r[p]) {
        break;
      }
      FoldedPrefix(l, Key(r), p);
      p := p + 1;
    }
    Decided(l, Key(r), p);
    DifferenceSign(|l|, rLen);
    comp := if p == end then Difference(|l|, rLen) else Lower(l[p]) - Lower(r[p]);
  }

  lemma KeyIs(r: Name)
    ensures |Key(r)| == |r| % 0x1_0000_0000 <= |r| && forall i :: 0 <= i < |Key(r)| ==> Key(r)[i] == r[i]
  {
  }

  /** Whether the first len bytes agree. */
  method StringEqual(a: Name, b: Name, len: nat, caseSensitive: bool) returns (equal: bool)
    requires len <= |a| && len <= |b|
    ensures equal == if caseSensitive then a[..len] == b[..len] else Folded(a[..len]) == Folded(b[..len])
  {
    if caseSensitive {
      return a[..len] == b[..len];
    }
    for i := 0 to len
      invariant Folded(a[..i]) == Folded(b[..i])
    {
      if Lower(a[i]) != Lower(b[i]) {
        assert Folded(a[..len])[i] != Folded(b[..len])[i];
        return false;
      }
      assert Folded(a[..i + 1]) == Folded(a[..i]) + [Lower(a[i])];
      assert Folded(b[..i + 1]) == Folded(b[..i]) + [Lower(b[i])];
    }
    return true;
  }
}
