/** The AES-256 block cipher of FIPS 197 and its in-place implementation. */
module Aes {
  import opened GaloisField

  // ----- tables -----

  /** The byte of a row of sixteen that the low half of x selects. */
  function Column(row: bv128, x: bv8): bv8 {
    var a := if x & 8 == 0 then row >> 64 else row;
    var b := if x & 4 == 0 then a >> 32 else a;
    var c := if x & 2 == 0 then b >> 16 else b;
    var d := if x & 1 == 0 then c >> 8 else c;
    (d & 0xff) as bv8
  }

  /** The substitution of section 5.1.1, one row for each high half. */
  function Sbox(x: bv8): bv8 {
    if x < 0x10 then Column(0x637c777b_f26b6fc5_3001672b_fed7ab76, x)
    else if x < 0x20 then Column(0xca82c97d_fa5947f0_add4a2af_9ca472c0, x)
    else if x < 0x30 then Column(0xb7fd9326_363ff7cc_34a5e5f1_71d83115, x)
    else if x < 0x40 then Column(0x04c723c3_1896059a_071280e2_eb27b275, x)
    else if x < 0x50 then Column(0x09832c1a_1b6e5aa0_523bd6b3_29e32f84, x)
    else if x < 0x60 then Column(0x53d100ed_20fcb15b_6acbbe39_4a4c58cf, x)
    else if x < 0x70 then Column(0xd0efaafb_434d3385_45f9027f_503c9fa8, x)
    else if x < 0x80 then Column(0x51a3408f_929d38f5_bcb6da21_10fff3d2, x)
    else if x < 0x90 then Column(0xcd0c13ec_5f974417_c4a77e3d_645d1973, x)
    else if x < 0xa0 then Column(0x60814fdc_222a9088_46eeb814_de5e0bdb, x)
    else if x < 0xb0 then Column(0xe0323a0a_4906245c_c2d3ac62_9195e479, x)
    else if x < 0xc0 then Column(0xe7c8376d_8dd54ea9_6c56f4ea_657aae08, x)
    else if x < 0xd0 then Column(0xba78252e_1ca6b4c6_e8dd741f_4bbd8b8a, x)
    else if x < 0xe0 then Column(0x703eb566_4803f60e_613557b9_86c11d9e, x)
    else if x < 0xf0 then Column(0xe1f89811_69d98e94_9b1e87e9_ce5528df, x)
    else Column(0x8ca1890d_bfe64268_41992d0f_b054bb16, x)
  }

  /** The substitution of section 5.3.2. */
  function InvSbox(x: bv8): bv8 {
    if x < 0x10 then Column(0x52096ad5_3036a538_bf40a39e_81f3d7fb, x)
    else if x < 0x20 then Column(0x7ce33982_9b2fff87_348e4344_c4dee9cb, x)
    else if x < 0x30 then Column(0x547b9432_a6c2233d_ee4c950b_42fac34e, x)
    else if x < 0x40 then Column(0x082ea166_28d924b2_765ba249_6d8bd125, x)
    else if x < 0x50 then Column(0x72f8f664_86689816_d4a45ccc_5d65b692, x)
    else if x < 0x60 then Column(0x6c704850_fdedb9da_5e154657_a78d9d84, x)
    else if x < 0x70 then Column(0x90d8ab00_8cbcd30a_f7e45805_b8b34506, x)
    else if x < 0x80 then Column(0xd02c1e8f_ca3f0f02_c1afbd03_01138a6b, x)
    else if x < 0x90 then Column(0x3a911141_4f67dcea_97f2cfce_f0b4e673, x)
    else if x < 0xa0 then Column(0x96ac7422_e7ad3585_e2f937e8_1c75df6e, x)
    else if x < 0xb0 then Column(0x47f11a71_1d29c589_6fb7620e_aa18be1b, x)
    else if x < 0xc0 then Column(0xfc563e4b_c6d27920_9adbc0fe_78cd5af4, x)
    else if x < 0xd0 then Column(0x1fdda833_8807c731_b1121059_2780ec5f, x)
    else if x < 0xe0 then Column(0x60517fa9_19b54a0d_2de57a9f_93c99cef, x)
    else if x < 0xf0 then Column(0xa0e03b4d_ae2af5b0_c8ebbb3c_83539961, x)
    else Column(0x172b047e_ba77d626_e1691463_55210c7d, x)
  }

  /** Every entry of the inverse table undoes the table. */
  lemma SboxBack(x: bv8)
    ensures InvSbox(Sbox(x)) == x
  {
  }

  /** Round constants: the powers of x; the first entry is never used. */
  const RCON: seq<bv8> := [0x8d, 0x01, 0x02, 0x04, 0x08, 0x10, 0x20, 0x40, 0x80, 0x1b, 0x36]

  function Rcon(i: nat): bv8
    requires i < 11
  {
    RCON[i]
  }

  // ----- the cipher, sections 5.1 and 5.3 -----

  /** The state, column after column. */
  type Block = b: seq<bv8> | |b| == 16 witness seq(16, _ => 0)

  function SubBytes(s: Block): Block {
    seq(16, i requires 0 <= i < 16 => Sbox(s[i]))
  }

  function InvSubBytes(s: Block): Block {
    seq(16, i requires 0 <= i < 16 => InvSbox(s[i]))
  }

  /** Row r moves r columns to the left. */
  function ShiftRows(s: Block): Block {
    seq(16, i requires 0 <= i < 16 => s[4 * ((i / 4 + i % 4) % 4) + i % 4])
  }

  function InvShiftRows(s: Block): Block {
    seq(16, i requires 0 <= i < 16 => s[4 * ((i / 4 + 4 - i % 4) % 4) + i % 4])
  }

  /** The byte k below byte i in its column, around. */
  function Place(i: nat, k: nat): (j: nat)
    requires i < 16
    ensures j < 16
  {
    4 * (i / 4) + (i + k) % 4
  }

  function Below(s: Block, i: nat, k: nat): bv8
    requires i < 16
  {
    s[Place(i, k)]
  }

  function MixColumns(s: Block): Block {
    seq(16, i requires 0 <= i < 16 => Mixed(Below(s, i, 0), Below(s, i, 1), Below(s, i, 2), Below(s, i, 3)))
  }

  function InvMixColumns(s: Block): Block {
    seq(16, i requires 0 <= i < 16 => Unmixed(Below(s, i, 0), Below(s, i, 1), Below(s, i, 2), Below(s, i, 3)))
  }

  function XorBlocks(s: Block, t: Block): Block {
    seq(16, i requires 0 <= i < 16 => Xor(s[i], t[i]))
  }

  /** The key of a round. */
  function RoundKey(w: seq<bv8>, round: nat): Block
    requires 16 * round + 16 <= |w|
  {
    w[16 * round..16 * round + 16]
  }

  /** The state before the last round's substitution: after the first key and `round` full rounds. */
  function Rounds(s: Block, w: seq<bv8>, round: nat): Block
    requires 16 * round + 16 <= |w|
    decreases round
  {
    if round == 0 then XorBlocks(s, RoundKey(w, 0))
    else XorBlocks(MixColumns(ShiftRows(SubBytes(Rounds(s, w, round - 1)))), RoundKey(w, round))
  }

  /** Encryption of a block with an expanded key. */
  function Encrypt(s: Block, w: seq<bv8>): Block
    requires |w| == 240
  {
    XorBlocks(ShiftRows(SubBytes(Rounds(s, w, 13))), RoundKey(w, 14))
  }

  /** The rest of the inverse cipher, from the round with key `round` on. */
  function InvRounds(s: Block, w: seq<bv8>, round: nat): Block
    requires 16 * round + 16 <= |w|
    decreases round
  {
    var t := XorBlocks(InvSubBytes(InvShiftRows(s)), RoundKey(w, round));
    if round == 0 then t else InvRounds(InvMixColumns(t), w, round - 1)
  }

  function Decrypt(s: Block, w: seq<bv8>): Block
    requires |w| == 240
  {
    InvRounds(XorBlocks(s, RoundKey(w, 14)), w, 13)
  }

  lemma XorBlocksBack(s: Block, t: Block)
    ensures XorBlocks(XorBlocks(s, t), t) == s
  {
    hide Xor;
    forall i | 0 <= i < 16 ensures XorBlocks(XorBlocks(s, t), t)[i] == s[i] {
      XorAgain(s[i], t[i]);
    }
  }

  lemma SubBytesBack(s: Block)
    ensures InvSubBytes(SubBytes(s)) == s
  {
    hide Sbox, InvSbox;
    forall i | 0 <= i < 16 ensures InvSubBytes(SubBytes(s))[i] == s[i] {
      SboxBack(s[i]);
    }
  }

  /** Where the rows come from. */
  lemma ShiftRowsIs(s: Block)
    ensures ShiftRows(s) == [s[0], s[5], s[10], s[15], s[4], s[9], s[14], s[3], s[8], s[13], s[2], s[7], s[12], s[1],
        s[6], s[11]]
  {
  }

  lemma InvShiftRowsIs(s: Block)
    ensures InvShiftRows(s) == [s[0], s[13], s[10], s[7], s[4], s[1], s[14], s[11], s[8], s[5], s[2], s[15], s[12],
        s[9], s[6], s[3]]
  {
  }

  lemma ShiftRowsBack(s: Block)
    ensures InvShiftRows(ShiftRows(s)) == s
  {
    hide ShiftRows, InvShiftRows;
    ShiftRowsIs(s);
    InvShiftRowsIs(ShiftRows(s));
  }

  lemma MixColumnsBack(s: Block)
    ensures InvMixColumns(MixColumns(s)) == s
  {
    hide Mixed, Unmixed;
    var m := MixColumns(s);
    forall i | 0 <= i < 16 ensures InvMixColumns(m)[i] == s[i] {
      UnmixedMixed(Below(s, i, 0), Below(s, i, 1), Below(s, i, 2), Below(s, i, 3));
      Around(s, i);
    }
  }

  lemma PlacePlace(i: nat, k: nat, l: nat)
    requires i < 16
    ensures Place(Place(i, k), l) == Place(i, k + l) && Place(i, k + 4) == Place(i, k) && Place(i, 0) == i
  {
    var q, r := (i + k) / 4, (i + k) % 4;
    assert i + k == 4 * q + r;
    assert Place(i, k) / 4 == i / 4;
    assert (Place(i, k) + l) % 4 == (r + l) % 4;
    assert (i + k + l) % 4 == (r + l) % 4;
  }

  /** The mixed column, from byte i on. */
  lemma Around(s: Block, i: nat)
    requires i < 16
    ensures var m := MixColumns(s); var a, b, c, d := Below(s, i, 0), Below(s, i, 1), Below(s, i, 2), Below(s, i, 3);
      && a == s[i] && Below(m, i, 0) == Mixed(a, b, c, d) && Below(m, i, 1) == Mixed(b, c, d, a)
      && Below(m, i, 2) == Mixed(c, d, a, b) && Below(m, i, 3) == Mixed(d, a, b, c)
  {
    hide Mixed, Place;
    MixedAt(s, i, 0);
    MixedAt(s, i, 1);
    MixedAt(s, i, 2);
    MixedAt(s, i, 3);
    PlacePlace(i, 0, 0);
    PlacePlace(i, 1, 0);
    PlacePlace(i, 2, 0);
  }

  lemma MixedAt(s: Block, i: nat, k: nat)
    requires i < 16
    ensures Below(MixColumns(s), i, k) == Mixed(Below(s, i, k), Below(s, i, k + 1), Below(s, i, k + 2),
        Below(s, i, k + 3))
  {
    hide Mixed, Place;
    PlacePlace(i, k, 0);
    PlacePlace(i, k, 1);
    PlacePlace(i, k, 2);
    PlacePlace(i, k, 3);
  }

  /** Each round of the inverse cipher undoes one round of the cipher. */
  lemma {:induction false} InvRoundsBack(s: Block, w: seq<bv8>, round: nat)
    requires 16 * round + 16 <= |w|
    ensures InvRounds(ShiftRows(SubBytes(Rounds(s, w, round))), w, round) == s
    decreases round
  {
    hide SubBytes, InvSubBytes, ShiftRows, InvShiftRows, MixColumns, InvMixColumns, XorBlocks, RoundKey;
    var t := Rounds(s, w, round);
    ShiftRowsBack(SubBytes(t));
    SubBytesBack(t);
    if round == 0 {
      XorBlocksBack(s, RoundKey(w, 0));
    } else {
      var u := ShiftRows(SubBytes(Rounds(s, w, round - 1)));
      XorBlocksBack(MixColumns(u), RoundKey(w, round));
      MixColumnsBack(u);
      InvRoundsBack(s, w, round - 1);
    }
  }

  /** The inverse cipher undoes the cipher, for every block and every expanded key. */
  lemma DecryptEncrypt(s: Block, w: seq<bv8>)
    requires |w| == 240
    ensures Decrypt(Encrypt(s, w), w) == s
  {
    hide SubBytes, ShiftRows, XorBlocks, RoundKey, Rounds, InvRounds;
    XorBlocksBack(ShiftRows(SubBytes(Rounds(s, w, 13))), RoundKey(w, 14));
    InvRoundsBack(s, w, 13);
  }

  // ----- the key schedule, section 5.2 -----

  function RotWord(t: seq<bv8>): (r: seq<bv8>)
    requires |t| == 4
    ensures |r| == 4
  {
    [t[1], t[2], t[3], t[0]]
  }

  function SubWord(t: seq<bv8>): (r: seq<bv8>)
    requires |t| == 4
    ensures |r| == 4
  {
    [Sbox(t[0]), Sbox(t[1]), Sbox(t[2]), Sbox(t[3])]
  }

  function XorWords(s: seq<bv8>, t: seq<bv8>): (r: seq<bv8>)
    requires |s| == 4 == |t|
    ensures |r| == 4
  {
    [Xor(s[0], t[0]), Xor(s[1], t[1]), Xor(s[2], t[2]), Xor(s[3], t[3])]
  }

  /** The word to add to the one eight words back. */
  function Temp(t: seq<bv8>, i: nat): (r: seq<bv8>)
    requires |t| == 4 && i < 60
    ensures |r| == 4
  {
    if i % 8 == 0 then XorWords(SubWord(RotWord(t)), [Rcon(i / 8), 0, 0, 0])
    else if i % 8 == 4 then SubWord(t)
    else t
  }

  /** The first n words of the expanded key. */
  function Words(key: seq<bv8>, n: nat): (w: seq<bv8>)
    requires |key| == 32 && n <= 60
    ensures |w| == 4 * n
    decreases n
  {
    if n <= 8 then key[..4 * n] else
    var w := Words(key, n - 1);
    w + XorWords(w[4 * n - 36..4 * n - 32], Temp(w[4 * n - 8..4 * n - 4], n - 1))
  }

  /** The expanded key: words 0 to 59. */
  function Expanded(key: seq<bv8>): (w: seq<bv8>)
    requires |key| == 32
    ensures |w| == 240
  {
    Words(key, 60)
  }

  /** A longer schedule starts like a shorter one. */
  lemma {:induction false} WordsPrefix(key: seq<bv8>, m: nat, n: nat)
    requires |key| == 32 && m <= n <= 60
    ensures Words(key, m) <= Words(key, n)
    decreases n
  {
    if m < n {
      WordsPrefix(key, m, n - 1);
      hide XorWords, Temp;
      if n <= 8 {
        assert key[..4 * (n - 1)] <= key[..4 * n];
      }
    }
  }

  /** The recurrence of the standard: w[i] is w[i - 8] plus the transformed w[i - 1]. */
  lemma WordIs(key: seq<bv8>, i: nat)
    requires |key| == 32 && i < 60
    ensures var w := Expanded(key);
      w[4 * i..4 * i + 4] == if i < 8 then key[4 * i..4 * i + 4]
          else XorWords(w[4 * i - 32..4 * i - 28], Temp(w[4 * i - 4..4 * i], i))
  {
    hide XorWords, Temp;
    var w := Expanded(key);
    WordsPrefix(key, i + 1, 60);
    WordsPrefix(key, i, i + 1);
    var v := Words(key, i + 1);
    assert w[4 * i..4 * i + 4] == v[4 * i..4 * i + 4];
    if i >= 8 {
      var u := Words(key, i);
      assert w[4 * i - 32..4 * i - 28] == v[4 * i - 32..4 * i - 28] == u[4 * i - 32..4 * i - 28];
      assert w[4 * i - 4..4 * i] == v[4 * i - 4..4 * i] == u[4 * i - 4..4 * i];
    } else {
      assert key[..4 * (i + 1)][4 * i..4 * i + 4] == key[4 * i..4 * i + 4];
    }
  }
}
