/** What the parser needs of the input window: the mirrored ring, matches, and the tokens' expansion. */
module LzParsing {
  import opened Bits
  import opened Deflate
  import opened TokenBuffer

  const DICT_SIZE := 32768
  const DICT_LEN := 33025

  // ----- the ring -----

  /** The ring holds the last 32768 bytes of the input, and its first 257 bytes once more behind its end. */
  ghost predicate Window(dict: seq<byte>, input: seq<byte>) {
    && |dict| == DICT_LEN
    && forall i :: 0 <= i < |input| && |input| <= i + DICT_SIZE ==> InRing(dict, input, i)
  }

  ghost predicate InRing(dict: seq<byte>, input: seq<byte>, i: nat)
    requires |dict| == DICT_LEN && i < |input|
  {
    dict[i % DICT_SIZE] == input[i] && (i % DICT_SIZE < 257 ==> dict[DICT_SIZE + i % DICT_SIZE] == input[i])
  }

  lemma ModApart(i: nat, n: nat)
    requires i < n < i + DICT_SIZE
    ensures i % DICT_SIZE != n % DICT_SIZE
  {
    var a, b := i / DICT_SIZE, n / DICT_SIZE;
    assert i == DICT_SIZE * a + i % DICT_SIZE && n == DICT_SIZE * b + n % DICT_SIZE;
  }

  /** The ring after one more byte. */
  function Written(dict: seq<byte>, at: nat, c: byte): (r: seq<byte>)
    requires |dict| == DICT_LEN && at < DICT_SIZE
    ensures |r| == |dict|
  {
    var d := dict[at := c];
    if at < 257 then d[DICT_SIZE + at := c] else d
  }

  lemma WindowNext(dict: seq<byte>, input: seq<byte>, c: byte)
    requires Window(dict, input)
    ensures Window(Written(dict, |input| % DICT_SIZE, c), input + [c])
  {
    var n := |input|;
    var d := Written(dict, n % DICT_SIZE, c);
    forall i | 0 <= i < n + 1 && n + 1 <= i + DICT_SIZE ensures InRing(d, input + [c], i) {
      if i < n {
        ModApart(i, n);
        assert InRing(dict, input, i);
      }
    }
  }

  lemma ModStep(x: nat, k: nat)
    requires k < 258
    ensures x % DICT_SIZE + k < DICT_SIZE ==> (x + k) % DICT_SIZE == x % DICT_SIZE + k
    ensures x % DICT_SIZE + k >= DICT_SIZE ==> (x + k) % DICT_SIZE == x % DICT_SIZE + k - DICT_SIZE
  {
    var q, r := x / DICT_SIZE, x % DICT_SIZE;
    assert x == DICT_SIZE * q + r;
    if r + k < DICT_SIZE {
      assert x + k == DICT_SIZE * q + (r + k);
    } else {
      assert x + k == DICT_SIZE * (q + 1) + (r + k - DICT_SIZE);
    }
  }

  /** Reading on past the ring's end finds the input in the mirror. */
  lemma WindowRead(dict: seq<byte>, input: seq<byte>, x: nat, k: nat)
    requires Window(dict, input) && k < 258 && x + k < |input| <= x + k + DICT_SIZE
    ensures x % DICT_SIZE + k < |dict| && dict[x % DICT_SIZE + k] == input[x + k]
  {
    ModStep(x, k);
    assert InRing(dict, input, x + k);
  }

  // ----- matches -----

  /** The len bytes from n on repeat those dist back. */
  ghost predicate MatchOk(input: seq<byte>, n: nat, dist: nat, len: nat) {
    && 1 <= dist <= n && n + len <= |input|
    && forall i :: n <= i < n + len ==> input[i] == input[i - dist]
  }

  /** Copying a match reproduces the input. */
  lemma {:induction false} CopyMatch(input: seq<byte>, n: nat, dist: nat, len: nat)
    requires MatchOk(input, n, dist, len)
    ensures Copy(input[..n], len, dist) == input[..n + len]
    decreases len
  {
    if len > 0 {
      assert input[..n] + [input[n - dist]] == input[..n + 1];
      CopyMatch(input, n + 1, dist, len - 1);
    }
  }

  // ----- tokens -----

  lemma {:induction false} ExpandSnoc(out: seq<byte>, ts: seq<Token>, t: Token)
    requires TokensOk(ts, |out|) && TokenOk(t, |Expand(out, ts)|)
    ensures TokensOk(ts + [t], |out|) && Expand(out, ts + [t]) == Apply(Expand(out, ts), t)
    decreases |ts|
  {
    hide Apply;
    if ts == [] {
      assert [t][1..] == [] && [] + [t] == [t];
    } else {
      ExpandSnoc(Apply(out, ts[0]), ts[1..], t);
      assert (ts + [t])[1..] == ts[1..] + [t];
    }
  }

  /** Where the parser is: the tokens stand for the input up to n. */
  ghost predicate Stands(plain: seq<byte>, ts: seq<Token>, input: seq<byte>, n: nat) {
    && n <= |input| && TokensOk(ts, |plain|) && Expand(plain, ts) == input[..n]
    && |plain| + TotalLength(ts) == n
  }

  lemma StandsStart(plain: seq<byte>, input: seq<byte>)
    requires plain <= input
    ensures Stands(plain, [], input, |plain|)
  {
  }

  /** New input changes nothing. */
  lemma StandsMore(plain: seq<byte>, ts: seq<Token>, input: seq<byte>, n: nat, more: seq<byte>)
    requires Stands(plain, ts, input, n)
    ensures Stands(plain, ts, input + more, n)
  {
    hide Expand, TokensOk;
    assert (input + more)[..n] == input[..n];
  }

  lemma StandsLiteral(plain: seq<byte>, ts: seq<Token>, input: seq<byte>, n: nat)
    requires Stands(plain, ts, input, n) && n < |input|
    ensures Stands(plain, ts + [Literal(input[n])], input, n + 1)
  {
    hide Expand, TokensOk, TotalLength;
    ExpandSnoc(plain, ts, Literal(input[n]));
    TotalSnoc(ts, Literal(input[n]));
    assert input[..n] + [input[n]] == input[..n + 1];
  }

  lemma StandsMatch(plain: seq<byte>, ts: seq<Token>, input: seq<byte>, n: nat, len: nat, dist: nat)
    requires Stands(plain, ts, input, n) && MatchOk(input, n, dist, len) && 3 <= len <= 258 && dist <= 32768
    ensures Stands(plain, ts + [Match(len, dist)], input, n + len)
  {
    CopyMatch(input, n, dist, len);
    hide Expand, TokensOk, TotalLength, Copy, MatchOk;
    var t := Match(len, dist);
    MatchDist(input, n, dist, len);
    ExpandSnoc(plain, ts, t);
    TotalSnoc(ts, t);
  }

  lemma MatchDist(input: seq<byte>, n: nat, dist: nat, len: nat)
    requires MatchOk(input, n, dist, len)
    ensures 1 <= dist <= n && n + len <= |input|
  {
  }

  /** The bytes of the block that the tokens stand for. */
  lemma StandsBlock(plain: seq<byte>, ts: seq<Token>, input: seq<byte>, n: nat)
    requires Stands(plain, ts, input, n) && plain <= input
    ensures |plain| <= n && plain + input[|plain|..n] == input[..n] == Expand(plain, ts)
    ensures |input[|plain|..n]| == TotalLength(ts)
  {
    hide Expand, TokensOk;
  }
}
