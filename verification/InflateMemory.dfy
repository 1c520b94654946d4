/** Decoding a whole stream that is in memory: into a buffer, into a buffer that grows, and through a callback. */
module InflateMemory {
  import opened Bits
  import opened Deflate
  import opened TableDecoding
  import opened InflateSteps
  import opened OutputWindow
  import opened Inflater
  import CutStreams
  import Adler32

  /** The first n bytes of src are a whole stream of the format, and it stands for data. */
  ghost predicate StreamIs(src: seq<byte>, zlib: bool, wrapping: bool, data: seq<byte>, n: nat) {
    var p := Decoding(ByteBits(src), zlib, wrapping);
    && p.Some? && p.value.out == data && EndsAt(src, zlib, data, p.value.pos, n)
  }

  /** Blocks that end at pos, and the checksum if there is one, take n bytes. */
  ghost predicate EndsAt(src: seq<byte>, zlib: bool, data: seq<byte>, pos: nat, n: nat) {
    && n <= |src| && Aligned(pos) + (if zlib then 32 else 0) == 8 * n
    && (zlib ==> 32 <= 8 * n && BigEndian(ByteBits(src), 8 * n - 32) == Adler32.Adler(1, data))
  }

  /** What the decoder makes of src if it is given all of it: of any bytes at all, not just of streams of the format. */
  ghost function Inflated(src: seq<byte>, zlib: bool, wrapping: bool): Option<seq<byte>> {
    var g := StreamReading(ByteBits(src), zlib, wrapping);
    if g.Complete? && exists n :: EndsAt(src, zlib, g.out, g.pos, n) then Some(g.out) else None
  }

  /** A stream of the format gives its data, and what gives data is one unless it is not clean. */
  lemma StreamInflates(src: seq<byte>, zlib: bool, wrapping: bool, data: seq<byte>)
    ensures (exists n :: StreamIs(src, zlib, wrapping, data, n))
      <==> Inflated(src, zlib, wrapping) == Some(data) && StreamReading(ByteBits(src), zlib, wrapping).clean
  {
    hide Decoding, StreamReading, EndsAt;
    CleanStream(ByteBits(src), zlib, wrapping);
    var g := StreamReading(ByteBits(src), zlib, wrapping);
    if Inflated(src, zlib, wrapping) == Some(data) && g.clean {
      var n :| EndsAt(src, zlib, g.out, g.pos, n);
      assert StreamIs(src, zlib, wrapping, data, n);
    }
  }

  /** Cut anywhere before its end it gives nothing, and what there is of it reads as a beginning of the data. */
  lemma CutInflates(src: seq<byte>, whole: seq<byte>, zlib: bool, wrapping: bool, data: seq<byte>, n: nat)
    requires StreamIs(whole, zlib, wrapping, data, n) && src <= whole && |src| < n
    ensures Inflated(src, zlib, wrapping).None?
    ensures var g := StreamReading(ByteBits(src), zlib, wrapping);
      || (g.Short? && g.out <= data)
      || (g.Complete? && g.out == data && Aligned(g.pos) + (if zlib then 32 else 0) > 8 * |src|)
  {
    hide Decoding, StreamReading, BigEndian, Adler32.Adler, ByteBits;
    BitsCut(src, whole);
    CutStreams.StreamCut(ByteBits(whole), zlib, wrapping, 8 * |src|);
  }

  /** A beginning of a whole stream. */
  ghost predicate Truncated(src: seq<byte>, zlib: bool, wrapping: bool) {
    exists whole: seq<byte>, data: seq<byte>, n: nat ::
      StreamIs(whole, zlib, wrapping, data, n) && src <= whole && |src| < n
  }

  lemma TruncatedMeans(src: seq<byte>, zlib: bool, wrapping: bool)
    ensures Truncated(src, zlib, wrapping) ==>
      Inflated(src, zlib, wrapping).None? && !StreamReading(ByteBits(src), zlib, wrapping).Before?
  {
    hide StreamIs, Inflated, StreamReading;
    if Truncated(src, zlib, wrapping) {
      var whole: seq<byte>, data: seq<byte>, n: nat :|
        StreamIs(whole, zlib, wrapping, data, n) && src <= whole && |src| < n;
      CutInflates(src, whole, zlib, wrapping, data, n);
    }
  }

  lemma BitsCut(src: seq<byte>, whole: seq<byte>)
    requires src <= whole
    ensures |ByteBits(src)| == 8 * |src| <= |ByteBits(whole)| && ByteBits(src) == ByteBits(whole)[..8 * |src|]
  {
    ByteBitsAppend(src, whole[|src|..]);
    assert whole == src + whole[|src|..];
    hide ByteBits;
  }

  /** The decoder's goal is what src reads as. */
  ghost predicate GoalIs(inf: Inflater, src: seq<byte>) {
    inf.r.stream == src && inf.goal == Some(StreamReading(ByteBits(src), inf.zlib, inf.o.wrapping))
  }

  /** The ring is read before anything was put there. */
  ghost predicate Unsaid(inf: Inflater, src: seq<byte>) {
    inf.o.wrapping && StreamReading(ByteBits(src), inf.zlib, true).Before?
  }

  lemma GoalMeans(inf: Inflater, src: seq<byte>)
    requires inf.Shape() && inf.r.stream == src
    ensures GoalIs(inf, src) || Unsaid(inf, src)
    ensures !inf.o.wrapping ==> GoalIs(inf, src)
    ensures Unsaid(inf, src) ==> StreamReading(ByteBits(src), inf.zlib, true).Before?
  {
    hide StreamReading;
  }

  /** The decoder is done exactly with what it can inflate. */
  lemma DoneMeans(inf: Inflater, src: seq<byte>, taken: nat, done: bool)
    requires GoalIs(inf, src) && taken <= |src| && inf.EndedAt(8 * taken)
    requires taken == inf.r.taken && (inf.zlib ==> 32 <= 8 * taken <= |inf.r.Bits()| && inf.summed == inf.o.out)
    requires done <==> inf.ChecksumMet()
    ensures Inflated(src, inf.zlib, inf.o.wrapping) == if done then Some(inf.o.out) else None
    ensures Finite(inf.goal) && inf.StreamBits() == 8 * taken
    ensures var g := StreamReading(ByteBits(src), inf.zlib, inf.o.wrapping); g.Complete? && g.out == inf.o.out
  {
    hide StreamReading, BigEndian, Adler32.Adler, Aligned, ByteBits;
    var g := StreamReading(ByteBits(src), inf.zlib, inf.o.wrapping);
    if done {
      assert EndsAt(src, inf.zlib, g.out, g.pos, taken);
    }
  }

  /** What a stream of the format is for the decoder. */
  lemma StreamGoal(inf: Inflater, src: seq<byte>, data: seq<byte>, n: nat)
    requires StreamIs(src, inf.zlib, inf.o.wrapping, data, n) && inf.r.stream == src
    requires GoalIs(inf, src) || Unsaid(inf, src)
    ensures GoalIs(inf, src) && Good(inf.goal) && Finite(inf.goal) && inf.StreamBits() == 8 * n
    ensures Inflated(src, inf.zlib, inf.o.wrapping) == Some(data)
  {
    hide StreamReading, Decoding, BigEndian, Adler32.Adler, Aligned, ByteBits;
    CleanStream(ByteBits(src), inf.zlib, inf.o.wrapping);
  }

  /** What a call of a method here says of whole streams. */
  lemma WholeMeans(inf: Inflater, src: seq<byte>)
    requires inf.r.stream == src
    requires GoalIs(inf, src) || Unsaid(inf, src)
    ensures forall data: seq<byte>, n: nat :: StreamIs(src, inf.zlib, inf.o.wrapping, data, n) ==>
      && GoalIs(inf, src) && Good(inf.goal) && Finite(inf.goal) && inf.StreamBits() == 8 * n
      && Inflated(src, inf.zlib, inf.o.wrapping) == Some(data)
  {
    hide *;
    forall data: seq<byte>, n: nat | StreamIs(src, inf.zlib, inf.o.wrapping, data, n)
      ensures GoalIs(inf, src) && Good(inf.goal) && Finite(inf.goal) && inf.StreamBits() == 8 * n
      ensures Inflated(src, inf.zlib, inf.o.wrapping) == Some(data)
    {
      StreamGoal(inf, src, data, n);
    }
  }

  lemma NotOvertaken(inf: Inflater, src: seq<byte>)
    requires GoalIs(inf, src)
    ensures !inf.Overtaken(0)
  {
    hide StreamReading;
  }

  /** What is refused, or too short, gives nothing. */
  lemma NotDone(inf: Inflater, src: seq<byte>)
    requires GoalIs(inf, src) && (Fails(inf.goal) || inf.TooShort())
    ensures Inflated(src, inf.zlib, inf.o.wrapping).None?
  {
    hide StreamReading, BigEndian, Adler32.Adler, Aligned, ByteBits;
  }

  /** There is more output than there is room. */
  lemma NoRoom(inf: Inflater, src: seq<byte>)
    requires GoalIs(inf, src) && Wants(inf.goal, inf.o.out)
    ensures var r := Inflated(src, inf.zlib, inf.o.wrapping); r.Some? ==> |inf.o.out| < |r.value|
  {
    hide StreamReading, EndsAt;
  }

  /** Decodes all of src into out: the contract is exact, for any bytes at all. */
  method MemToMem(out: array<byte>, outLen: nat, src: seq<byte>, zlib: bool) returns (len: Option<nat>)
    requires outLen <= out.Length < SIZE_MAX
    modifies out
    ensures var r := Inflated(src, zlib, false);
      && (len.Some? <==> r.Some? && |r.value| <= outLen)
      && (len.Some? ==> len.value == |r.value| && out[..len.value] == r.value)
    ensures Truncated(src, zlib, false) ==> len.None?
  {
    hide *;
    TruncatedMeans(src, zlib, false);
    var inf := new Inflater(src, zlib, false, 0);
    inf.OwnArrays();
    inf.FitsFirst(out[..], outLen);
    inf.RestFollows(src);
    assert src[0..] == src;
    var status, consumed, produced := inf.Decompress(src, out, 0, outLen, false);
    GoalMeans(inf, src);
    NotOvertaken(inf, src);
    assert [] + out[0..produced] == out[..produced];
    if status.Done? || status.AdlerMismatch? {
      DoneMeans(inf, src, inf.r.taken, status.Done?);
      len := if status.Done? then Some(produced) else None;
    } else {
      if status.HasMoreOutput? {
        NoRoom(inf, src);
      } else {
        NotDone(inf, src);
      }
      len := None;
    }
  }

  /** A callback that takes a finite number of bytes, and may refuse them earlier. */
  class Taker {
    var received: seq<byte>
    var room: nat
    var refused: bool

    method Take(bytes: seq<byte>) returns (ok: bool)
      modifies this
      ensures ok ==> (received == old(received) + bytes && |bytes| <= old(room) == room + |bytes|
          && refused == old(refused))
      ensures !ok ==> received == old(received) && refused
    {
      ok := *;
      ok := ok && |bytes| <= room;
      if ok {
        received, room := received + bytes, room - |bytes|;
      } else {
        refused := true;
      }
    }
  }

  lemma RingIsPowerOfTwo()
    ensures PowerOfTwo(32768) && 32768 < SIZE_MAX
  {
    assert PowerOfTwo(64);
    assert PowerOfTwo(4096);
  }

  lemma NothingPromised(inf: Inflater)
    requires inf.o.out == []
    ensures Promises(inf.goal, inf.o.out)
  {
  }

  /** What has arrived is a prefix of the data. */
  lemma Arrives(inf: Inflater, src: seq<byte>, before: seq<byte>, out: seq<byte>)
    requires Promises(inf.goal, out) && inf.r.stream == src
    requires GoalIs(inf, src) || Unsaid(inf, src)
    ensures var g := StreamReading(ByteBits(src), inf.zlib, inf.o.wrapping);
      g.Complete? || g.Short? ==> before <= before + out <= before + g.out
  {
    hide StreamReading, ByteBits;
  }

  /** The ring goes on after the last byte written, or at its start. */
  lemma NextPlace(inf: Inflater, ring: seq<byte>, next: nat)
    requires 0 < inf.o.modulus == 32768 && inf.o.wrapping && next <= 32768 && inf.Fits(ring, next, 32768 - next)
    ensures inf.Fits(ring, next % 32768, 32768 - next % 32768)
  {
    hide History;
  }

  /**
   Decodes src through a ring of 32768 bytes, handing on each stretch of output. What arrives is a prefix of the data,
   and all of it if the answer is yes; a whole stream is refused only by the callback. What a match from before the
   output gives is not said: it copies what the ring held.
   */
  method MemToCallback(src: seq<byte>, zlib: bool, put: Taker) returns (done: bool, consumed: nat)
    requires !put.refused
    modifies put
    ensures consumed <= |src|
    ensures var g := StreamReading(ByteBits(src), zlib, true);
      && (g.Complete? || g.Short? ==> old(put.received) <= put.received <= old(put.received) + g.out)
      && (done && !g.Before? ==> (g.Complete? && Inflated(src, zlib, true) == Some(g.out)
          && put.received == old(put.received) + g.out))
    ensures Truncated(src, zlib, true) ==> !done
    ensures forall data: seq<byte>, n: nat :: StreamIs(src, zlib, true, data, n) ==>
      && (done <==> !put.refused)
      && (done ==> consumed == n)
  {
    hide *;
    TruncatedMeans(src, zlib, true);
    ghost var before := put.received;
    var ring := new byte[32768](_ => 0);
    var inf := new Inflater(src, zlib, true, 32768);
    inf.OwnArrays();
    inf.FitsFirst(ring[..], 32768);
    RingIsPowerOfTwo();
    NothingPromised(inf);
    var next: nat := 0;
    consumed := 0;
    while true
      invariant inf.Ready() && inf.r.taken == consumed <= |src| && next < 32768
      invariant inf.Fits(ring[..], next, 32768 - next)
      invariant put.received == before + inf.o.out && inf.summed == (if zlib then inf.o.out else []) && !put.refused
      invariant Promises(inf.goal, inf.o.out)
      decreases put.room
    {
      inf.RestFollows(src);
      ghost var out := inf.o.out;
      var status, taken, produced := inf.Decompress(src[consumed..], ring, next, 32768 - next, false);
      GoalMeans(inf, src);
      WholeMeans(inf, src);
      Arrives(inf, src, before, out);
      if status.AssertFailed? {
        return false, consumed;
      }
      Arrives(inf, src, before, inf.o.out);
      consumed := consumed + taken;
      ghost var more := ring[next..next + produced];
      assert before + out + more == before + (out + more) && before + out + [] == before + out;
      if produced > 0 {
        var ok := put.Take(ring[next..next + produced]);
        if !ok {
          return false, consumed;
        }
      }
      if !status.HasMoreOutput? {
        if GoalIs(inf, src) {
          if status.Done? || status.AdlerMismatch? {
            DoneMeans(inf, src, inf.r.taken, status.Done?);
          } else {
            NotDone(inf, src);
          }
        }
        return status.Done?, consumed;
      }
      NextPlace(inf, ring[..], next + produced);
      next := (next + produced) % 32768;
    }
  }

  lemma Appended(before: seq<byte>, b: array<byte>, from: nat, to: nat)
    requires from <= to <= b.Length && Within(before, b[..], from, to)
    ensures before[..from] + b[from..to] == b[..to]
  {
    assert b[..][..from] == b[..from];
  }

  /** A longer buffer with the same start will do as well. */
  lemma Grown(inf: Inflater, b: seq<byte>, longer: seq<byte>, next: nat, size: nat, size': nat)
    requires 0 < inf.o.modulus && !inf.o.wrapping && inf.Fits(b, next, size) && b <= longer
    ensures inf.Fits(longer, next, size')
  {
  }

  /** A buffer of another size that starts like the old one; there is none above the limit. */
  method Reallocate(b: array<byte>, capacity: nat, limit: nat) returns (longer: array?<byte>)
    requires b.Length <= capacity
    ensures longer == null <==> capacity > limit
    ensures longer != null ==> fresh(longer) && longer.Length == capacity && b[..] <= longer[..]
  {
    if capacity > limit {
      return null;
    }
    longer := new byte[capacity](_ => 0);
    forall i | 0 <= i < b.Length {
      longer[i] := b[i];
    }
  }

  /** Decodes all of src into a buffer that is made twice as long whenever it is full. */
  method MemToHeap(src: seq<byte>, zlib: bool, limit: nat) returns (buf: array?<byte>, len: nat)
    requires limit < SIZE_MAX
    ensures buf != null ==> len <= buf.Length
    ensures buf != null ==> Inflated(src, zlib, false) == Some(buf[..len])
    ensures Truncated(src, zlib, false) ==> buf == null
    ensures forall data: seq<byte>, n: nat ::
      (StreamIs(src, zlib, false, data, n) && 128 <= limit && 2 * |data| <= limit ==> buf != null)
  {
    hide *;
    TruncatedMeans(src, zlib, false);
    var b := new byte[0];
    var inf := new Inflater(src, zlib, false, 0);
    inf.OwnArrays();
    inf.FitsFirst(b[..], 0);
    var ofs: nat := 0;
    len := 0;
    while true
      invariant inf.Ready() && inf.r.taken == ofs <= |src| && len <= b.Length <= limit && fresh(b) && b !in inf.Arrays()
      invariant inf.o.out == b[..len] && inf.summed == (if zlib then inf.o.out else [])
      invariant inf.Fits(b[..], len, b.Length - len)
      decreases limit - b.Length
    {
      inf.RestFollows(src);
      ghost var was := b[..];
      assert was[..len] == b[..len];
      var status, taken, produced := inf.Decompress(src[ofs..], b, len, b.Length - len, false);
      GoalMeans(inf, src);
      WholeMeans(inf, src);
      if !status.Done? && !status.HasMoreOutput? {
        if status.AdlerMismatch? {
          DoneMeans(inf, src, inf.r.taken, false);
        } else if !status.AssertFailed? {
          NotDone(inf, src);
        }
        return null, 0;
      }
      ofs := ofs + taken;
      Appended(was, b, len, len + produced);
      len := len + produced;
      if status.Done? {
        DoneMeans(inf, src, inf.r.taken, true);
        return b, len;
      }
      NoRoom(inf, src);
      var capacity := if b.Length * 2 < 128 then 128 else b.Length * 2;
      var longer := Reallocate(b, capacity, limit);
      if longer == null {
        return null, 0;
      }
      Grown(inf, b[..], longer[..], len, b.Length - len, longer.Length - len);
      assert longer[..len] == b[..len];
      b := longer;
    }
  }
}
