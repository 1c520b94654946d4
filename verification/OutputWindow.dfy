/** The decoder's output buffer: all of the output so far, or a ring that holds the end of it. */
module OutputWindow {
  import opened Bits
  import opened Deflate
  import opened Division

  const SIZE_MAX := 0x1_0000_0000_0000_0000

  predicate PowerOfTwo(n: nat) {
    n == 1 || (n > 1 && n % 2 == 0 && PowerOfTwo(n / 2))
  }

  /** The buffer holds the last m bytes of the output, each at its number modulo m. */
  ghost predicate History(buf: seq<byte>, out: seq<byte>, m: nat)
    requires 0 < m
  {
    forall i :: 0 <= i < |out| && |out| <= i + m ==> i % m < |buf| && buf[i % m] == out[i]
  }

  /** Numbers less than m apart have different places. */
  lemma ModDiffer(i: nat, n: nat, m: nat)
    requires 0 < m && i < n < i + m
    ensures i % m != n % m
  {
    DivMod(i, m);
    DivMod(n, m);
    var a, b := i / m, n / m;
    if i % m == n % m {
      Distribute(m, b, a);
      Distribute(m, a, b);
      if b > a {
        MulAtLeast(m, b - a);
      }
      if a > b {
        MulAtLeast(m, a - b);
      }
    }
  }

  lemma HistoryAt(buf: seq<byte>, out: seq<byte>, m: nat, i: nat)
    requires 0 < m && History(buf, out, m) && i < |out| <= i + m
    ensures i % m < |buf| && buf[i % m] == out[i]
  {
  }

  lemma HistoryNext(buf: seq<byte>, out: seq<byte>, m: nat, c: byte)
    requires 0 < m && History(buf, out, m) && |out| % m < |buf|
    ensures History(buf[|out| % m := c], out + [c], m)
  {
    var n := |out|;
    forall i | 0 <= i < n && n + 1 <= i + m ensures i % m != n % m {
      ModDiffer(i, n, m);
    }
  }

  /** Numbers k further on are k places further on, up to the end of the ring. */
  lemma ModForward(x: nat, k: nat, m: nat)
    requires 0 < m && x % m + k < m
    ensures (x + k) % m == x % m + k
  {
    var q := x / m;
    assert x == m * q + x % m;
    ModUnique(q, x % m + k, m);
  }

  class OutputWindow {
    const wrapping: bool
    /** Positions count modulo the ring's size, or in the whole of the address space. */
    const modulus: nat
    var buf: array<byte>
    var outPos: nat
    var outEnd: nat
    ghost var out: seq<byte>
    ghost var start: nat
    ghost var before: seq<byte>
    ghost var first: seq<byte>

    /** A ring of the given size, or a buffer for all of the output. */
    constructor (wrapping: bool, size: nat)
      ensures this.wrapping == wrapping && out == [] && fresh(buf) && modulus == if wrapping then size else SIZE_MAX
    {
      this.wrapping := wrapping;
      modulus := if wrapping then size else SIZE_MAX;
      buf := new byte[0];
      outPos, outEnd, out, start, before, first := 0, 0, [], 0, [], [];
    }

    ghost predicate Valid()
      reads this, buf
    {
      && outPos <= outEnd <= buf.Length < SIZE_MAX
      && 0 < modulus && (modulus == if wrapping then outEnd else SIZE_MAX) && History(buf[..], out, modulus)
      && outPos % modulus == |out| % modulus
      && (!wrapping ==> outPos == |out|)
      && Wrote()
    }

    /** Since the window was opened the output's new bytes have gone into it, and nothing else has changed. */
    ghost predicate Wrote()
      reads this, buf
    {
      && start <= outPos <= |first| && before <= out && outPos - start == |out| - |before|
      && buf[..] == first[..start] + out[|before|..] + first[outPos..]
    }

    /** What the buffer holds since then. */
    lemma WroteMeans()
      requires Valid()
      ensures start <= outPos <= outEnd <= buf.Length == |first| && out == before + buf[start..outPos]
      ensures buf[..start] == first[..start] && buf[outPos..] == first[outPos..]
    {
      hide History;
      var mid := out[|before|..];
      assert out == before + mid;
      assert buf[start..outPos] == mid;
      assert buf[..start] == first[..start];
      assert buf[outPos..] == first[outPos..];
    }

    lemma Settled()
      requires Valid()
      ensures History(buf[..], out, modulus) && outPos % modulus == |out| % modulus && (!wrapping ==> outPos == |out|)
    {
    }

    /** Appends a byte. */
    method Put(c: byte)
      requires Valid() && outPos < outEnd
      modifies `outPos, `out, buf
      ensures Valid() && out == old(out) + [c] && outPos == old(outPos) + 1
      ensures buf[..] == old(buf[..])[old(outPos) := c]
    {
      ghost var b := buf[..];
      SmallMod(outPos, modulus);
      HistoryNext(b, out, modulus, c);
      NextMod(outPos, |out|, modulus);
      WroteNext(first, start, out[|before|..], outPos, c);
      assert (out + [c])[|before|..] == out[|before|..] + [c];
      hide History;
      buf[outPos] := c;
      outPos := outPos + 1;
      out := out + [c];
      assert buf[..] == b[outPos - 1 := c];
    }

    /** The part of a buffer that a call may fill. */
    method Open(b: array<byte>, next: nat, size: nat)
      requires next + size <= b.Length < SIZE_MAX && 0 < modulus
      requires modulus == if wrapping then next + size else SIZE_MAX
      requires History(b[..], out, modulus) && next % modulus == |out| % modulus && (!wrapping ==> next == |out|)
      modifies this
      ensures Valid() && buf == b && outPos == next == start && outEnd == next + size && out == old(out) == before
      ensures first == b[..]
    {
      buf, outPos, outEnd := b, next, next + size;
      start, before, first := next, out, b[..];
    }

    /** The place that is dist back, whatever dist is. */
    function Back(from: nat, dist: nat): (p: nat)
      requires 0 < modulus
    {
      (from - dist) % modulus
    }

    /** One byte of a match, from the place dist back of `from`. */
    method CopyByte(from: nat, dist: nat)
      requires Valid() && outPos < outEnd && from % modulus == |out| % modulus
      requires wrapping || dist <= from == |out|
      modifies `outPos, `out, buf
      ensures Valid() && outPos == old(outPos) + 1 && |out| == |old(out)| + 1 && out[..|old(out)|] == old(out)
      ensures 1 <= dist <= |old(out)| && dist <= modulus ==> out == old(out) + [old(out)[|old(out)| - dist]]
    {
      BackInside(from, dist);
      ghost var o := out;
      Put(buf[Back(from, dist)]);
    }

    lemma BackInside(from: nat, dist: nat)
      requires Valid() && outPos < outEnd && from % modulus == |out| % modulus
      requires wrapping || dist <= from == |out|
      ensures Back(from, dist) < buf.Length
      ensures 1 <= dist <= |out| && dist <= modulus ==> buf[Back(from, dist)] == out[|out| - dist]
    {
      PlaceInside(from, dist);
      hide History;
      if 1 <= dist <= |out| && dist <= modulus {
        CongruentBack(from, |out|, dist, modulus);
        HistoryAt(buf[..], out, modulus, |out| - dist);
      }
    }

    lemma PlaceInside(from: nat, dist: nat)
      requires Valid() && outPos < outEnd
      requires wrapping || dist <= from == |out|
      ensures Back(from, dist) < buf.Length
    {
      hide History;
      if wrapping {
        DivMod(from - dist, modulus);
      } else {
        SmallMod(from - dist, modulus);
      }
    }

    /** A match whose bytes lie in one stretch: three bytes at a time, each read after the one before is written. */
    method CopyRun(src: nat, n: nat, ghost dist: nat)
      requires Valid() && src + n <= outEnd && outPos + n <= outEnd && src < modulus
      requires src % modulus == (|out| - dist) % modulus
      modifies `outPos, `out, buf
      ensures Valid() && outPos == old(outPos) + n && |out| == |old(out)| + n && out[..|old(out)|] == old(out)
      ensures 1 <= dist <= |old(out)| && dist <= modulus ==> out == Copy(old(out), n, dist)
    {
      hide *;
      ghost var o := out;
      var left: nat := n;
      CopyNone(o, dist);
      while left > 2
        invariant left <= n && outPos == old(outPos) + (n - left) && Copied(o, n - left, dist)
      {
        RunByte(src + (n - left), o, n - left, dist, src);
        RunByte(src + (n - left) + 1, o, n - left + 1, dist, src);
        RunByte(src + (n - left) + 2, o, n - left + 2, dist, src);
        left := left - 3;
      }
      if left > 0 {
        RunByte(src + (n - left), o, n - left, dist, src);
        if left > 1 {
          RunByte(src + (n - left) + 1, o, n - left + 1, dist, src);
        }
      }
      CopiedAll(o, n, dist);
    }

    lemma CopiedAll(o: seq<byte>, n: nat, dist: nat)
      requires Copied(o, n, dist)
      ensures Valid() && |out| == |o| + n && out[..|o|] == o
      ensures 1 <= dist <= |o| && dist <= modulus ==> out == Copy(o, n, dist)
    {
    }

    /** k bytes of a match have been copied. */
    ghost predicate Copied(o: seq<byte>, k: nat, dist: nat)
      reads this, buf
    {
      && Valid() && |out| == |o| + k && out[..|o|] == o
      && (1 <= dist <= |o| && dist <= modulus ==> out == Copy(o, k, dist))
    }

    lemma CopyNone(o: seq<byte>, dist: nat)
      requires Valid() && out == o
      ensures Copied(o, 0, dist)
    {
    }

    method RunByte(p: nat, ghost o: seq<byte>, ghost k: nat, ghost dist: nat, ghost src: nat)
      requires Copied(o, k, dist) && p == src + k < outEnd && outPos < outEnd && src < modulus
      requires src % modulus == (|o| - dist) % modulus
      modifies `outPos, `out, buf
      ensures Copied(o, k + 1, dist) && outPos == old(outPos) + 1
    {
      RunPlace(p, o, k, dist, src);
      hide Copy, History;
      Put(buf[p]);
    }

    /** The byte read is the one dist back. */
    lemma RunPlace(p: nat, o: seq<byte>, k: nat, dist: nat, src: nat)
      requires Copied(o, k, dist) && p == src + k < outEnd && outPos < outEnd && src < modulus
      requires src % modulus == (|o| - dist) % modulus
      ensures 1 <= dist <= |o| && dist <= modulus ==> out + [buf[p]] == Copy(o, k + 1, dist)
    {
      var m := modulus;
      if 1 <= dist <= |o| && dist <= m {
        SmallMod(src, m);
        ModForward(|o| - dist, k, m);
        CopySnoc(o, k, dist);
        assert buf[(|out| - dist) % m] == out[|out| - dist];
      }
    }
  }

  lemma {:induction false} CopySnoc(out: seq<byte>, n: nat, dist: nat)
    requires 1 <= dist <= |out|
    ensures Copy(out, n + 1, dist) == Copy(out, n, dist) + [Copy(out, n, dist)[|out| + n - dist]]
    decreases n
  {
    if n > 0 {
      CopySnoc(out + [out[|out| - dist]], n - 1, dist);
    }
  }

  lemma WroteNext(first: seq<byte>, start: nat, added: seq<byte>, at: nat, c: byte)
    requires start <= at < |first| && |added| == at - start
    ensures (first[..start] + added + first[at..])[at := c] == first[..start] + (added + [c]) + first[at + 1..]
  {
  }
}
