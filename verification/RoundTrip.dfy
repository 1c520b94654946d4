/** What the compressor delivers, the decoder turns back into the input. */
module RoundTrip {
  import opened Bits
  import opened Deflate
  import opened BlockDecoding
  import opened BlockWriter
  import opened Compressor
  import opened TableDecoding
  import opened InflateSpec
  import opened InflateSteps
  import opened InflateMemory
  import opened OutputWindow
  import Inflater
  import Adler32

  /** A byte of a byte string that is somewhere in the stream. */
  lemma ByteInside(s: seq<bool>, x: seq<bool>, m: seq<byte>, z: seq<bool>, i: nat)
    requires s == x + (ByteBits(m) + z) && i < |m|
    ensures |x| + 8 * i + 8 <= |s| && Field(s, |x| + 8 * i, 8) == Some(m[i] as nat) && ByteAt(s, |x| + 8 * i) == m[i]
  {
    hide ByteBits, NatBits, BitsNat, Low;
    assert m == m[..i] + ([m[i]] + m[i + 1..]);
    ByteBitsMiddle(m[..i], [m[i]], m[i + 1..]);
    ByteBitsOne(m[i]);
    assert s[|x| + 8 * i..|x| + 8 * i + 8] == ByteBits(m)[8 * i..8 * i + 8];
    BitsNatOfNatBits(m[i], 8);
    ByteFits(m[i]);
    LowSmall(m[i], 8);
  }

  /** The four bytes of the checksum are read back as it. */
  lemma ChecksumBack(s: seq<bool>, x: seq<bool>, a: nat, z: seq<bool>)
    requires a < 0x1_0000_0000 && s == x + (ByteBits(AdlerBytes(a)) + z)
    ensures |x| + 32 <= |s| && Inflater.BigEndian(s, |x|) == a
  {
    hide ByteBits, ByteAt;
    var m := AdlerBytes(a);
    ByteInside(s, x, m, z, 0);
    ByteInside(s, x, m, z, 1);
    ByteInside(s, x, m, z, 2);
    ByteInside(s, x, m, z, 3);
    FourBytes(a);
  }

  lemma FourBytes(a: nat)
    requires a < 0x1_0000_0000
    ensures var m: seq<nat> := AdlerBytes(a); |m| == 4 && 0x100_0000 * m[0] + 0x1_0000 * m[1] + 256 * m[2] + m[3] == a
  {
  }

  /** Which two bytes the decoder takes for a zlib header: the checks of RFC 1950 section 2.2, and the ring's size. */
  lemma HeaderDecides(data: seq<byte>, wrapping: bool)
    ensures |data| < 2 ==> StreamReading(ByteBits(data), true, wrapping) == Short([])
    ensures |data| >= 2 ==>
      var cmf: nat, flg: nat := data[0], data[1];
      StreamReading(ByteBits(data), true, wrapping)
      == if (256 * cmf + flg) % 31 == 0 && cmf % 16 == 8 && flg / 32 % 2 == 0 && !(wrapping && cmf >= 128)
         then TableBlocks(ByteBits(data), 16, []) else Wrong
  {
    hide ByteBits, TableBlocks, BitsNat, ZlibHeaderOk;
    if |data| >= 2 {
      TwoFields(data);
      HeaderOkIs(data[0], data[1], wrapping);
    } else {
      NoHeader(data);
    }
  }

  lemma TwoFields(data: seq<byte>)
    requires |data| >= 2
    ensures Field(ByteBits(data), 0, 8) == Some(data[0] as nat) && Field(ByteBits(data), 8, 8) == Some(data[1] as nat)
  {
    hide ByteBits, Field;
    var s := ByteBits(data);
    assert s == [] + (ByteBits(data) + []);
    ByteInside(s, [], data, [], 0);
    ByteInside(s, [], data, [], 1);
  }

  lemma NoHeader(data: seq<byte>)
    requires |data| < 2
    ensures Field(ByteBits(data), 0, 8) == None || Field(ByteBits(data), 8, 8) == None
  {
    hide BitsNat;
  }

  lemma HeaderOkIs(cmf: nat, flg: nat, wrapping: bool)
    requires cmf < 256
    ensures ZlibHeaderOk(cmf, flg, wrapping)
       <==> (256 * cmf + flg) % 31 == 0 && cmf % 16 == 8 && flg / 32 % 2 == 0 && !(wrapping && cmf >= 128)
  {
  }

  /** The decoder takes the zlib header that the compressor writes, with any number of probes. */
  lemma HeaderTaken(s: seq<bool>, probes: nat, wrapping: bool)
    requires ZlibHeader(probes) <= s
    ensures Decoding(s, true, wrapping) == Blocks(s, 16, [])
    ensures StreamReading(s, true, wrapping) == TableBlocks(s, 16, [])
  {
    hide ByteBits, Blocks, TableBlocks, Field;
    var m: seq<byte> := [0x78, ZlibFlags(probes)];
    var z := s[16..];
    assert s == [] + (ByteBits(m) + z);
    ByteInside(s, [], m, z, 0);
    ByteInside(s, [], m, z, 1);
  }

  /** From the start of the blocks on the decoder follows the compressor. */
  lemma BlocksStart(flags: CompFlags, s: seq<bool>, wrapping: bool)
    requires StreamHeader(flags) <= s
    ensures Decoding(s, flags.zlib, wrapping) == Blocks(s, |StreamHeader(flags)|, [])
    ensures StreamReading(s, flags.zlib, wrapping) == TableBlocks(s, |StreamHeader(flags)|, [])
  {
    hide ByteBits, Blocks, TableBlocks;
    if flags.zlib {
      HeaderTaken(s, flags.probes, wrapping);
    }
  }

  /**
   The round trip: whatever the input, the settings and the bytes that follow the stream, what the compressor has
   delivered when it is done decodes to the input, the decoder takes exactly the compressor's bytes, and the checksum
   it finds is that of the input.
   */
  lemma RoundTrip(flags: CompFlags, input: seq<byte>, received: seq<byte>, tail: seq<byte>, wrapping: bool)
    requires StreamFor(flags, input, received)
    ensures StreamIs(received + tail, flags.zlib, wrapping, input, |received|)
  {
    hide ByteBits, Ends, Padding, Aligned, Decoding, Inflater.BigEndian, Adler32.Adler, StreamHeader;
    hide AdlerBytes;
    var a := Checksum(flags, input);
    var e :| Ends(StreamHeader(flags), e, [], input) && ByteBits(received) == e + Trailer(|e|, flags.zlib, a);
    var s := ByteBits(received + tail);
    ByteBitsAppend(received, tail);
    PaddingAligns(|e|);
    EndsHere(flags, e, s, input, wrapping);
    if flags.zlib {
      var x := e + Padding(|e|);
      assert s == x + (ByteBits(AdlerBytes(a)) + ByteBits(tail));
      ChecksumBack(s, x, a, ByteBits(tail));
      FourBytes(a);
    }
  }

  lemma EndsHere(flags: CompFlags, e: seq<bool>, s: seq<bool>, input: seq<byte>, wrapping: bool)
    requires Ends(StreamHeader(flags), e, [], input) && e <= s
    ensures Decoding(s, flags.zlib, wrapping) == Some(Progress(input, |e|))
  {
    hide Blocks, StreamHeader, Decoding;
    BlocksStart(flags, s, wrapping);
  }

  /** The decoder's tables lead past the same blocks. */
  lemma {:induction false} PassesTables(s: seq<bool>, pos: nat, out: seq<byte>, end: nat, out': seq<byte>)
    requires Passes(s, pos, out, end, out')
    ensures TableBlocks(s, pos, out) == TableBlocks(s, end, out')
    decreases |s| - pos
  {
    hide Block, TableBlock, BitsNat;
    if !(pos == end && out == out') {
      var kind := BitsNat(s[pos + 1..pos + 3]);
      CleanBlock(kind, s, pos + 3, out);
      var r := Block(kind, s, pos + 3, out).value;
      PassesTables(s, r.pos, r.out, end, out');
    }
  }

  /**
   After a flush: what was delivered reads as a stream that is cut off after the whole input so far, and every longer
   stream that is not refused starts with that input.
   */
  lemma FlushedReading(flags: CompFlags, input: seq<byte>, received: seq<byte>, rest: seq<byte>, wrapping: bool)
    requires StreamSoFar(flags, input, received)
    ensures StreamReading(ByteBits(received), flags.zlib, wrapping) == Short(input)
    ensures var g := StreamReading(ByteBits(received + rest), flags.zlib, wrapping);
      g.Complete? || g.Short? ==> input <= g.out
    ensures var p := Decoding(ByteBits(received + rest), flags.zlib, wrapping);
      p.Some? ==> input <= p.value.out
  {
    hide ByteBits, TableBlocks, StreamHeader, StreamReading, Decoding;
    CleanStream(ByteBits(received + rest), flags.zlib, wrapping);
    var s, n := ByteBits(received + rest), |ByteBits(received)|;
    ByteBitsAppend(received, rest);
    FlushedBlocks(flags, input, received, ByteBits(received), wrapping);
    NoBlocks(ByteBits(received), input);
    FlushedBlocks(flags, input, received, s, wrapping);
    BlocksOnward(s, n, input);
  }

  lemma FlushedBlocks(flags: CompFlags, input: seq<byte>, received: seq<byte>, s: seq<bool>, wrapping: bool)
    requires StreamSoFar(flags, input, received) && ByteBits(received) <= s
    ensures StreamReading(s, flags.zlib, wrapping) == TableBlocks(s, |ByteBits(received)|, input)
  {
    hide ByteBits, TableBlocks, StreamHeader, StreamReading, Passes;
    BlocksStart(flags, s, wrapping);
    PassesTables(s, |StreamHeader(flags)|, [], |ByteBits(received)|, input);
  }

  lemma NoBlocks(s: seq<bool>, out: seq<byte>)
    ensures TableBlocks(s, |s|, out) == Short(out)
  {
  }

  /** However it was fed, a decoder that has taken all of a flush and asks for more has put out all of the input. */
  lemma AsksAfterAll(inf: Inflater.Inflater, flags: CompFlags, input: seq<byte>)
    requires inf.Shape() && inf.zlib == flags.zlib && StreamSoFar(flags, input, inf.r.stream) && inf.TooShort()
    ensures inf.o.out == input
  {
    hide StreamReading, StreamSoFar;
    FlushedReading(flags, input, inf.r.stream, [], inf.o.wrapping);
  }

  /** What a flush has delivered comes out in one call, if there is room for a byte more. */
  method DecodeFlushed(flags: CompFlags, ghost input: seq<byte>, received: seq<byte>, out: array<byte>)
    returns (len: nat)
    requires StreamSoFar(flags, input, received) && |input| < out.Length < SIZE_MAX
    modifies out
    ensures len == |input| && out[..len] == input
  {
    hide *;
    var inf := new Inflater.Inflater(received, flags.zlib, false, 0);
    inf.OwnArrays();
    inf.FitsFirst(out[..], out.Length);
    inf.RestFollows(received);
    assert received[0..] == received;
    var status, consumed, produced := inf.Decompress(received, out, 0, out.Length, true);
    FlushedReading(flags, input, received, [], false);
    CutShort(inf, received, input, inf.o.out);
    assert [] + out[0..produced] == out[..produced];
    AsksAfterAll(inf, flags, input);
    len := produced;
  }

  /** For such a stream the decoder's answer can only be to ask for more. */
  lemma CutShort(inf: Inflater.Inflater, received: seq<byte>, input: seq<byte>, out: seq<byte>)
    requires inf.Shape() && inf.r.stream == received && !inf.o.wrapping
    requires StreamReading(ByteBits(received), inf.zlib, false) == Short(input)
    ensures !Fails(inf.goal) && !inf.EndedAt(8 * inf.r.taken) && !inf.Overtaken(0)
    ensures Promises(inf.goal, out) ==> |out| <= |input|
  {
    hide StreamReading;
  }

  /** Compresses a whole input in one call. */
  method CompressToOutput(input: seq<byte>, flags: CompFlags, sink: Sink) returns (ok: bool)
    requires sink.received == []
    modifies sink
    ensures ok ==> StreamFor(flags, input, sink.received)
    ensures !ok ==> sink.refused
  {
    hide *;
    var c := new Compressor(flags, sink);
    var status, taken := c.Compress(input, Flush.Finish, sink);
    ok := status.Done?;
    assert [] + input == input;
  }

  /** There and back: whatever has been compressed is what comes out again, with any bytes after it. */
  method ThereAndBack(input: seq<byte>, flags: CompFlags, tail: seq<byte>, sink: Sink, out: array<byte>)
    returns (ok: bool, back: Option<nat>)
    requires sink.received == [] && !sink.refused && |input| <= out.Length < SIZE_MAX
    modifies sink, out
    ensures ok ==> back == Some(|input|) && out[..|input|] == input
    ensures !sink.refused ==> ok
  {
    hide *;
    ok := CompressToOutput(input, flags, sink);
    back := None;
    if ok {
      RoundTrip(flags, input, sink.received, tail, false);
      StreamInflates(sink.received + tail, flags.zlib, false, input);
      back := MemToMem(out, out.Length, sink.received + tail, flags.zlib);
    }
  }
}
