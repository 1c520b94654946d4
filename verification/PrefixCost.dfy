/** The weighted length of prefix codes, and what merging the two lightest weights does to its minimum. */
module PrefixCost {
  import opened Bits

  /** A weight with the length of its code word. */
  datatype Leaf = Leaf(weight: nat, len: nat)

  /** The weighted length of a code. */
  function Cost(s: seq<Leaf>): nat {
    if s == [] then 0 else Cost(s[1..]) + s[0].weight * s[0].len
  }

  /** The share of a code space of 2^n that the words of a code take. */
  function Share(s: seq<Leaf>, n: nat): nat
    requires Within(s, n)
  {
    if s == [] then 0 else Share(s[1..], n) + Shl(1, n - s[0].len)
  }

  ghost predicate Within(s: seq<Leaf>, n: nat) {
    forall i :: 0 <= i < |s| ==> s[i].len <= n
  }

  /** A prefix code with these lengths exists: the Kraft inequality. */
  ghost predicate PrefixCode(s: seq<Leaf>, n: nat) {
    Within(s, n) && Share(s, n) <= Pow2(n)
  }

  function Weights(s: seq<Leaf>): multiset<nat> {
    if s == [] then multiset{} else Weights(s[1..]) + multiset{s[0].weight}
  }

  /** Some prefix code for the weights costs c or less. */
  ghost predicate Achieves(weights: multiset<nat>, c: nat) {
    exists s: seq<Leaf>, n: nat :: PrefixCode(s, n) && Weights(s) == weights && Cost(s) <= c
  }

  // ----- taking elements out -----

  function Without<T>(s: seq<T>, i: nat): (r: seq<T>)
    requires i < |s|
    ensures |r| == |s| - 1
    ensures forall k :: 0 <= k < |r| ==> r[k] == if k < i then s[k] else s[k + 1]
  {
    s[..i] + s[i + 1..]
  }

  lemma {:induction false} TakeOutCost(s: seq<Leaf>, i: nat)
    requires i < |s|
    ensures Cost(s) == Cost(Without(s, i)) + s[i].weight * s[i].len
  {
    if i == 0 {
      assert Without(s, 0) == s[1..];
    } else {
      TakeOutCost(s[1..], i - 1);
      assert Without(s, i) == [s[0]] + Without(s[1..], i - 1);
    }
  }

  lemma {:induction false} TakeOutWeights(s: seq<Leaf>, i: nat)
    requires i < |s|
    ensures Weights(s) == Weights(Without(s, i)) + multiset{s[i].weight}
  {
    if i == 0 {
      assert Without(s, 0) == s[1..];
    } else {
      TakeOutWeights(s[1..], i - 1);
      assert Without(s, i) == [s[0]] + Without(s[1..], i - 1);
    }
  }

  lemma {:induction false} TakeOutShare(s: seq<Leaf>, i: nat, n: nat)
    requires i < |s| && Within(s, n)
    ensures Within(Without(s, i), n) && Share(s, n) == Share(Without(s, i), n) + Shl(1, n - s[i].len)
  {
    hide Shl;
    if i == 0 {
      assert Without(s, 0) == s[1..];
    } else {
      TakeOutShare(s[1..], i - 1, n);
      assert Without(s, i) == [s[0]] + Without(s[1..], i - 1);
    }
  }

  lemma TakeOut(s: seq<Leaf>, i: nat, n: nat)
    requires i < |s| && Within(s, n)
    ensures Cost(s) == Cost(Without(s, i)) + s[i].weight * s[i].len
    ensures Weights(s) == Weights(Without(s, i)) + multiset{s[i].weight}
    ensures Within(Without(s, i), n) && Share(s, n) == Share(Without(s, i), n) + Shl(1, n - s[i].len)
  {
    TakeOutCost(s, i);
    TakeOutWeights(s, i);
    TakeOutShare(s, i, n);
  }

  lemma PutIn(s: seq<Leaf>, e: Leaf, n: nat)
    ensures Cost([e] + s) == Cost(s) + e.weight * e.len
    ensures Weights([e] + s) == Weights(s) + multiset{e.weight}
    ensures Within(s, n) && e.len <= n ==> Within([e] + s, n) && Share([e] + s, n) == Share(s, n) + Shl(1, n - e.len)
  {
    assert ([e] + s)[1..] == s;
  }

  lemma {:induction false} FindWeight(s: seq<Leaf>, w: nat) returns (i: nat)
    requires w in Weights(s)
    ensures i < |s| && s[i].weight == w
  {
    if s[0].weight == w {
      i := 0;
    } else {
      i := FindWeight(s[1..], w);
      i := i + 1;
    }
  }

  lemma {:induction false} WeightsOf(s: seq<Leaf>, i: nat)
    requires i < |s|
    ensures s[i].weight in Weights(s)
  {
    if i > 0 {
      WeightsOf(s[1..], i - 1);
    }
  }

  lemma {:induction false} WeightsSize(s: seq<Leaf>)
    ensures |Weights(s)| == |s|
  {
    if s != [] {
      WeightsSize(s[1..]);
    }
  }

  // ----- two words of greatest length -----

  function Deepest(s: seq<Leaf>, n: nat): nat {
    if s == [] then 0 else Deepest(s[1..], n) + if s[0].len == n then 1 else 0
  }

  /** Words shorter than n take an even share of 2^n. */
  lemma {:induction false} ShareParity(s: seq<Leaf>, n: nat)
    requires Within(s, n) && 0 < n
    ensures Share(s, n) % 2 == Deepest(s, n) % 2
    ensures Deepest(s, n) == 0 ==> Within(s, n - 1) && Share(s, n) == 2 * Share(s, n - 1)
  {
    if s != [] {
      assert Within(s[1..], n);
      ShareParity(s[1..], n);
      if Deepest(s, n) == 0 {
        assert forall i :: 0 < i < |s| ==> s[i] == s[1..][i - 1];
      }
    }
  }

  lemma {:induction false} FindDeepest(s: seq<Leaf>, n: nat) returns (i: nat)
    requires 0 < Deepest(s, n)
    ensures i < |s| && s[i].len == n && Deepest(Without(s, i), n) == Deepest(s, n) - 1
  {
    if s[0].len == n {
      i := 0;
      assert Without(s, 0) == s[1..];
    } else {
      i := FindDeepest(s[1..], n);
      i := i + 1;
      assert Without(s, i)[1..] == Without(s[1..], i - 1);
    }
  }

  lemma {:induction false} ShareCounts(s: seq<Leaf>)
    requires Within(s, 0)
    ensures Share(s, 0) == |s|
  {
    if s != [] {
      ShareCounts(s[1..]);
    }
  }

  /** A single word of the greatest length may lose a bit. */
  lemma Shorten(s: seq<Leaf>, n: nat) returns (r: seq<Leaf>)
    requires PrefixCode(s, n) && 0 < n && Deepest(s, n) == 1
    ensures PrefixCode(r, n - 1) && |r| == |s| && Weights(r) == Weights(s) && Cost(r) <= Cost(s)
  {
    var i := FindDeepest(s, n);
    var u, e := Without(s, i), Leaf(s[i].weight, n - 1);
    TakeOut(s, i, n);
    PutIn(u, e, n);
    r := [e] + u;
    assert e.weight * n == e.weight * (n - 1) + e.weight;
    ShareParity(s, n);
    assert r[1..] == u;
    ShareParity(r, n);
    assert Shl(1, 1) == 2 * Shl(1, 0);
  }

  /** A code for two or more weights can be shortened until two words have the greatest length. */
  lemma {:induction false} Tighten(s: seq<Leaf>, n: nat) returns (t: seq<Leaf>, k: nat)
    requires PrefixCode(s, n) && |s| >= 2
    ensures PrefixCode(t, k) && 0 < k && Weights(t) == Weights(s) && Cost(t) <= Cost(s)
    ensures 2 <= Deepest(t, k)
    decreases n
  {
    if n == 0 {
      ShareCounts(s);
      assert false;
    }
    ShareParity(s, n);
    if Deepest(s, n) == 0 {
      t, k := Tighten(s, n - 1);
    } else if Deepest(s, n) == 1 {
      var r := Shorten(s, n);
      t, k := Tighten(r, n - 1);
    } else {
      t, k := s, n;
    }
  }

  // ----- the two lightest weights as siblings -----

  /** Takes out the lightest weight x as a word of the greatest length n, another word taking over its old length. */
  lemma Sink(s: seq<Leaf>, n: nat, x: nat) returns (t: seq<Leaf>)
    requires Within(s, n) && 1 <= Deepest(s, n) && x in Weights(s)
    requires forall w :: w in Weights(s) ==> x <= w
    ensures Within(t, n) && Share(t, n) + 1 == Share(s, n)
    ensures Weights(t) + multiset{x} == Weights(s)
    ensures Cost(t) + x * n <= Cost(s) && Deepest(t, n) + 1 == Deepest(s, n)
  {
    var i := FindWeight(s, x);
    TakeOut(s, i, n);
    if s[i].len == n {
      DeepestOf(s, i, n);
      t := Without(s, i);
    } else {
      var d := FindDeepest(s, n);
      WeightsOf(s, d);
      t := Swap(s, n, i, d);
      Exchange(x, s[d].weight, s[i].len, n);
    }
  }

  /** Removes word i, giving its length to word d of length n. */
  lemma Swap(s: seq<Leaf>, n: nat, i: nat, d: nat) returns (t: seq<Leaf>)
    requires Within(s, n) && i < |s| && d < |s| && s[d].len == n && s[i].len < n
    ensures Within(t, n) && Share(t, n) + 1 == Share(s, n)
    ensures Weights(t) + multiset{s[i].weight} == Weights(s)
    ensures Cost(t) + s[d].weight * n + s[i].weight * s[i].len == Cost(s) + s[d].weight * s[i].len
    ensures Deepest(t, n) + 1 == Deepest(s, n)
  {
    var r := Without(s, d);
    var j := if i < d then i else i - 1;
    TakeOut(s, d, n);
    DeepestOf(s, d, n);
    assert r[j] == s[i];
    var u, e := Without(r, j), Leaf(s[d].weight, s[i].len);
    TakeOut(r, j, n);
    DeepestOf(r, j, n);
    t := [e] + u;
    PutIn(u, e, n);
    assert t[1..] == u;
  }

  lemma {:induction false} DeepestOf(s: seq<Leaf>, i: nat, n: nat)
    requires i < |s|
    ensures Deepest(s, n) == Deepest(Without(s, i), n) + if s[i].len == n then 1 else 0
  {
    if i == 0 {
      assert Without(s, 0) == s[1..];
    } else {
      DeepestOf(s[1..], i - 1, n);
      assert Without(s, i) == [s[0]] + Without(s[1..], i - 1);
    }
  }

  lemma Exchange(x: nat, y: nat, l: nat, n: nat)
    requires x <= y && l <= n
    ensures x * n + y * l <= x * l + y * n
  {
    assert (y - x) * (n - l) >= 0;
    assert (y - x) * (n - l) == y * n - y * l - x * n + x * l;
  }

  lemma MergeCode(s: seq<Leaf>, n: nat, x: nat, y: nat, rest: multiset<nat>) returns (r: seq<Leaf>, k: nat)
    requires PrefixCode(s, n) && Weights(s) == multiset{x, y} + rest
    requires x <= y && forall w :: w in rest ==> y <= w
    ensures PrefixCode(r, k) && Weights(r) == rest + multiset{x + y} && Cost(r) + x + y <= Cost(s)
  {
    hide Cost, Share, Weights, Deepest;
    WeightsSize(s);
    assert multiset{x, y} + rest == multiset{x} + (multiset{y} + rest);
    var t;
    t, k := Tighten(s, n);
    var u := Sink(t, k, x);
    CancelOne(Weights(u), multiset{y} + rest, x);
    var v := Sink(u, k, y);
    CancelOne(Weights(v), rest, y);
    r := Graft(v, k, x + y);
    MergedCost(x, y, k);
  }

  lemma CancelOne(a: multiset<nat>, b: multiset<nat>, x: nat)
    requires a + multiset{x} == multiset{x} + b
    ensures a == b
  {
    assert a == a + multiset{x} - multiset{x};
    assert b == multiset{x} + b - multiset{x};
  }

  lemma MergedCost(x: nat, y: nat, k: nat)
    requires 0 < k
    ensures x * k + y * k == (x + y) * (k - 1) + (x + y)
  {
  }

  /**
   Huffman's step: whatever a code for the weights costs, merging the two lightest into one weight leaves a code
   that is cheaper by their sum.
   */
  lemma MergeLightest(rest: multiset<nat>, x: nat, y: nat, c: nat)
    requires x <= y && forall w :: w in rest ==> y <= w
    requires Achieves(multiset{x, y} + rest, c)
    ensures x + y <= c && Achieves(rest + multiset{x + y}, c - (x + y))
  {
    hide Cost, Share, Weights, Deepest, PrefixCode;
    var s: seq<Leaf>, n: nat :| PrefixCode(s, n) && Weights(s) == multiset{x, y} + rest && Cost(s) <= c;
    var r, k := MergeCode(s, n, x, y, rest);
    assert PrefixCode(r, k);
  }

  /** Any code for the leaves costs at least spent plus the cost of some code for the live weights. */
  ghost predicate Bounded(leaves: multiset<nat>, live: multiset<nat>, spent: nat) {
    forall c: nat :: Achieves(leaves, c) ==> spent <= c && Achieves(live, c - spent)
  }

  lemma BoundedStart(leaves: multiset<nat>)
    ensures Bounded(leaves, leaves, 0)
  {
  }

  lemma BoundedStep(leaves: multiset<nat>, rest: multiset<nat>, spent: nat, x: nat, y: nat)
    requires x <= y && forall w :: w in rest ==> y <= w
    requires Bounded(leaves, multiset{x, y} + rest, spent)
    ensures Bounded(leaves, rest + multiset{x + y}, spent + (x + y))
  {
    hide Achieves;
    forall c: nat | Achieves(leaves, c)
      ensures spent + (x + y) <= c && Achieves(rest + multiset{x + y}, c - (spent + (x + y)))
    {
      MergeLightest(rest, x, y, c - spent);
    }
  }

  /** Adds a word one bit shorter than the greatest length. */
  lemma Graft(v: seq<Leaf>, k: nat, w: nat) returns (r: seq<Leaf>)
    requires Within(v, k) && 0 < k
    ensures Within(r, k) && Share(r, k) == Share(v, k) + 2
    ensures Weights(r) == Weights(v) + multiset{w} && Cost(r) == Cost(v) + w * (k - 1)
  {
    PutIn(v, Leaf(w, k - 1), k);
    r := [Leaf(w, k - 1)] + v;
    assert Shl(1, 1) == 2 * Shl(1, 0);
  }
}
