/** The message "abc" of the examples of FIPS 180-4 and RFC 1321, padded to its only block. */
module AbcMessage {
  import opened Words
  import opened BlockStream

  const ABC: seq<bv8> := [0x61, 0x62, 0x63]

  /** With the length, 24 bits, at the end, and with its least byte first. */
  const BIG_BLOCK: Chunk := [0x61, 0x62, 0x63, 0x80] + Zeros(59) + [24]
  const LITTLE_BLOCK: Chunk := [0x61, 0x62, 0x63, 0x80] + Zeros(52) + [24] + Zeros(7)

  lemma LengthBytes()
    ensures BigLength(24) == [0, 0, 0, 0, 0, 0, 0, 24] && LittleLength(24) == [24, 0, 0, 0, 0, 0, 0, 0]
  {
    assert ByteAt(24, 0) == 24 && ByteAt(0, 0) == 0;
    assert ByteAt(24, 1) == 0 && ByteAt(0, 1) == 0 && ByteAt(0, 2) == 0 && ByteAt(0, 3) == 0 && ByteAt(0, 4) == 0;
    assert ByteAt(0, 5) == 0 && ByteAt(0, 6) == 0;
  }

  lemma Joined(a: seq<bv8>, b: seq<bv8>, n: nat)
    requires a == ABC
    ensures a + ([0x80] + Zeros(n)) + b == [0x61, 0x62, 0x63, 0x80] + Zeros(n) + b
  {
    assert a + [0x80] == [0x61, 0x62, 0x63, 0x80];
    assert a + ([0x80] + Zeros(n)) == (a + [0x80]) + Zeros(n);
  }

  lemma ZerosAfter(a: seq<bv8>)
    ensures a + Zeros(52) + [0, 0, 0, 0, 0, 0, 0, 24] == a + Zeros(59) + [24]
    ensures a + [24, 0, 0, 0, 0, 0, 0, 0] == a + [24] + Zeros(7)
  {
    assert Zeros(59) == Zeros(52) + [0, 0, 0, 0, 0, 0, 0];
    assert Zeros(7) == [0, 0, 0, 0, 0, 0, 0];
  }

  lemma Padded()
    ensures ABC + Padding(|ABC|) + BigLength(BitLength(|ABC|)) == BIG_BLOCK
    ensures ABC + Padding(|ABC|) + LittleLength(BitLength(|ABC|)) == LITTLE_BLOCK
  {
    assert BitLength(3) == 24 && Padding(3) == [0x80] + Zeros(52);
    LengthBytes();
    hide Padding, BigLength, LittleLength, BitLength, Zeros;
    Joined(ABC, [0, 0, 0, 0, 0, 0, 0, 24], 52);
    Joined(ABC, [24, 0, 0, 0, 0, 0, 0, 0], 52);
    ZerosAfter([0x61, 0x62, 0x63, 0x80]);
    ZerosAfter([0x61, 0x62, 0x63, 0x80] + Zeros(52));
  }

  /** The bytes of one more word. */
  lemma BigNext(xs: seq<bv32>, n: nat)
    requires n < |xs|
    ensures BigAll(xs[..n + 1]) == BigAll(xs[..n]) + BigBytes(xs[n]) && BigAll(xs[..0]) == []
  {
    assert xs[..n + 1][..n] == xs[..n];
    hide BigBytes;
  }

  lemma LittleNext(xs: seq<bv32>, n: nat)
    requires n < |xs|
    ensures LittleAll(xs[..n + 1]) == LittleAll(xs[..n]) + LittleBytes(xs[n]) && LittleAll(xs[..0]) == []
  {
    assert xs[..n + 1][..n] == xs[..n];
    hide LittleBytes;
  }
}
