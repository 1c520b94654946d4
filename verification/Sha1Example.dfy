/** What FIPS 180-4 says of the constants of SHA-1, and its example. */
module Sha1Example {
  import opened Words
  import opened BlockStream
  import opened AbcMessage
  import opened Sha1

  /** k is the whole part of 2^30 times the square root of p. */
  predicate Root(p: nat, k: bv32) {
    var r := k as nat;
    r * r <= p * 0x4000_0000 * 0x4000_0000 < (r + 1) * (r + 1)
  }

  /** The constants are the square roots of 2, 3, 5 and 10. */
  lemma ConstantIs(t: nat)
    requires t < 80
    ensures Root(if t < 20 then 2 else if t < 40 then 3 else if t < 60 then 5 else 10, K(t))
  {
    Roots();
    hide Root;
  }

  lemma Roots()
    ensures Root(2, 0x5a827999) && Root(3, 0x6ed9eba1) && Root(5, 0x8f1bbcdc) && Root(10, 0xca62c1d6)
  {
  }

  /** The initial words count the sixteen digits up and down, and the last has them in turns. */
  lemma Initials()
    ensures INITIAL[0] == 0x67452301 && INITIAL[1] == 0xefcdab89 && INITIAL[2] == 0x98badcfe
    ensures INITIAL[3] == 0x10325476 && INITIAL[4] == 0xc3d2e1f0
  {
  }

  // ----- the example -----

  predicate WordOk(p: bv32, q: bv32, r: bv32, s: bv32, w: bv32) {
    Rol(XorAll(p, q, r, s), 1) == w
  }

  /** A word of the schedule, from those 3, 8, 14 and 16 before it. */
  lemma Word(m: Chunk, t: nat, p: bv32, q: bv32, r: bv32, s: bv32, w: bv32)
    requires 16 <= t < 80 && W(m, t - 3) == p && W(m, t - 8) == q && W(m, t - 14) == r && W(m, t - 16) == s
    requires WordOk(p, q, r, s, w)
    ensures W(m, t) == w
  {
    hide W, Rol, XorAll;
    WIs(m, t);
  }

  /** The sum x of the first register, turned, of what the others give, and of the rest. */
  predicate StepOk(t: nat, a: bv32, b: bv32, c: bv32, d: bv32, e: bv32, w: bv32, p: bv32, q: bv32, x: bv32, y: bv32) {
    Rol(a, 5) == p && Mix(t, b, c, d) == q && Total(p, q, e, K(t), w) == x && Rol(b, 30) == y
  }

  lemma Step(s: State, m: Chunk, t: nat, a: bv32, b: bv32, c: bv32, d: bv32, e: bv32, w: bv32, p: bv32, q: bv32,
             x: bv32, y: bv32)
    requires t < 80 && Rounds(s, m, t) == Registers(a, b, c, d, e) && W(m, t) == w
    requires StepOk(t, a, b, c, d, e, w, p, q, x, y)
    ensures Rounds(s, m, t + 1) == Registers(x, a, y, c, d)
  {
    hide W, K, Rounds, Round, Rol, Mix, Total;
    RoundsNext(s, m, t);
    RoundIs(a, b, c, d, e, w, t);
  }

  lemma Start(s: State, m: Chunk)
    requires s == INITIAL
    ensures Rounds(s, m, 0) == Registers(0x67452301, 0xefcdab89, 0x98badcfe, 0x10325476, 0xc3d2e1f0)
  {
    Initials();
    NoRounds(s, m);
    hide Rounds;
  }

  lemma Words0(m: Chunk)
    requires m == BIG_BLOCK
    ensures W(m, 0) == 0x61626380 && W(m, 1) == 0 && W(m, 2) == 0 && W(m, 3) == 0
    ensures W(m, 4) == 0 && W(m, 5) == 0 && W(m, 6) == 0 && W(m, 7) == 0
    ensures W(m, 8) == 0 && W(m, 9) == 0 && W(m, 10) == 0 && W(m, 11) == 0
    ensures W(m, 12) == 0 && W(m, 13) == 0 && W(m, 14) == 0 && W(m, 15) == 24
  {
  }

  lemma Words1(m: Chunk)
    requires m == BIG_BLOCK
    ensures W(m, 16) == 0xc2c4c700 && W(m, 17) == 0 && W(m, 18) == 0x00000030 && W(m, 19) == 0x85898e01
    ensures W(m, 20) == 0 && W(m, 21) == 0x00000060 && W(m, 22) == 0x0b131c03 && W(m, 23) == 0x00000030
    ensures W(m, 24) == 0x85898ec1 && W(m, 25) == 0x16263806 && W(m, 26) == 0 && W(m, 27) == 0x00000180
    ensures W(m, 28) == 0x2c4c700c && W(m, 29) == 0x000000f0 && W(m, 30) == 0x93afb507 && W(m, 31) == 0x5898e048
  {
    hide W;
    Words0(m);
    Word(m, 16, 0x00000000, 0x00000000, 0x00000000, 0x61626380, 0xc2c4c700);
    Word(m, 17, 0x00000000, 0x00000000, 0x00000000, 0x00000000, 0x00000000);
    Word(m, 18, 0x00000018, 0x00000000, 0x00000000, 0x00000000, 0x00000030);
    Word(m, 19, 0xc2c4c700, 0x00000000, 0x00000000, 0x00000000, 0x85898e01);
    Word(m, 20, 0x00000000, 0x00000000, 0x00000000, 0x00000000, 0x00000000);
    Word(m, 21, 0x00000030, 0x00000000, 0x00000000, 0x00000000, 0x00000060);
    Word(m, 22, 0x85898e01, 0x00000000, 0x00000000, 0x00000000, 0x0b131c03);
    Word(m, 23, 0x00000000, 0x00000018, 0x00000000, 0x00000000, 0x00000030);
    Word(m, 24, 0x00000060, 0xc2c4c700, 0x00000000, 0x00000000, 0x85898ec1);
    Word(m, 25, 0x0b131c03, 0x00000000, 0x00000000, 0x00000000, 0x16263806);
    Word(m, 26, 0x00000030, 0x00000030, 0x00000000, 0x00000000, 0x00000000);
    Word(m, 27, 0x85898ec1, 0x85898e01, 0x00000000, 0x00000000, 0x00000180);
    Word(m, 28, 0x16263806, 0x00000000, 0x00000000, 0x00000000, 0x2c4c700c);
    Word(m, 29, 0x00000000, 0x00000060, 0x00000018, 0x00000000, 0x000000f0);
    Word(m, 30, 0x00000180, 0x0b131c03, 0xc2c4c700, 0x00000000, 0x93afb507);
    Word(m, 31, 0x2c4c700c, 0x00000030, 0x00000000, 0x00000018, 0x5898e048);
  }

  lemma Words2(m: Chunk)
    requires m == BIG_BLOCK
    ensures W(m, 32) == 0x8e9a9202 && W(m, 33) == 0x00000600 && W(m, 34) == 0xb131c0f0 && W(m, 35) == 0x16263bc6
    ensures W(m, 36) == 0x4ebed41e && W(m, 37) == 0x626380a1 && W(m, 38) == 0x16263806 && W(m, 39) == 0x000018c0
    ensures W(m, 40) == 0xd2e138c4 && W(m, 41) == 0x00000f00 && W(m, 42) == 0x3afb5079 && W(m, 43) == 0x898e04e5
    ensures W(m, 44) == 0xe2ba3c2b && W(m, 45) == 0x000060c0 && W(m, 46) == 0x053a37cd && W(m, 47) == 0x74458547
  {
    hide W;
    Words1(m);
    Word(m, 32, 0x000000f0, 0x85898ec1, 0x00000030, 0xc2c4c700, 0x8e9a9202);
    Word(m, 33, 0x93afb507, 0x16263806, 0x85898e01, 0x00000000, 0x00000600);
    Word(m, 34, 0x5898e048, 0x00000000, 0x00000000, 0x00000030, 0xb131c0f0);
    Word(m, 35, 0x8e9a9202, 0x00000180, 0x00000060, 0x85898e01, 0x16263bc6);
    Word(m, 36, 0x00000600, 0x2c4c700c, 0x0b131c03, 0x00000000, 0x4ebed41e);
    Word(m, 37, 0xb131c0f0, 0x000000f0, 0x00000030, 0x00000060, 0x626380a1);
    Word(m, 38, 0x16263bc6, 0x93afb507, 0x85898ec1, 0x0b131c03, 0x16263806);
    Word(m, 39, 0x4ebed41e, 0x5898e048, 0x16263806, 0x00000030, 0x000018c0);
    Word(m, 40, 0x626380a1, 0x8e9a9202, 0x00000000, 0x85898ec1, 0xd2e138c4);
    Word(m, 41, 0x16263806, 0x00000600, 0x00000180, 0x16263806, 0x00000f00);
    Word(m, 42, 0x000018c0, 0xb131c0f0, 0x2c4c700c, 0x00000000, 0x3afb5079);
    Word(m, 43, 0xd2e138c4, 0x16263bc6, 0x000000f0, 0x00000180, 0x898e04e5);
    Word(m, 44, 0x00000f00, 0x4ebed41e, 0x93afb507, 0x2c4c700c, 0xe2ba3c2b);
    Word(m, 45, 0x3afb5079, 0x626380a1, 0x5898e048, 0x000000f0, 0x000060c0);
    Word(m, 46, 0x898e04e5, 0x16263806, 0x8e9a9202, 0x93afb507, 0x053a37cd);
    Word(m, 47, 0xe2ba3c2b, 0x000018c0, 0x00000600, 0x5898e048, 0x74458547);
  }

  lemma Words3(m: Chunk)
    requires m == BIG_BLOCK
    ensures W(m, 48) == 0xda9415ed && W(m, 49) == 0x26380a16 && W(m, 50) == 0x626383a1 && W(m, 51) == 0x4ebf54de
    ensures W(m, 52) == 0x3835b44b && W(m, 53) == 0x0000f600 && W(m, 54) == 0x1e84c7a3 && W(m, 55) == 0x98e04d98
    ensures W(m, 56) == 0x651d16a0 && W(m, 57) == 0x62658ca1 && W(m, 58) == 0x458544d6 && W(m, 59) == 0x44584cb7
    ensures W(m, 60) == 0x7ba06619 && W(m, 61) == 0x6380aea2 && W(m, 62) == 0x0ae55269 && W(m, 63) == 0x627b49a1
  {
    hide W;
    Words2(m);
    Word(m, 48, 0x000060c0, 0xd2e138c4, 0xb131c0f0, 0x8e9a9202, 0xda9415ed);
    Word(m, 49, 0x053a37cd, 0x00000f00, 0x16263bc6, 0x00000600, 0x26380a16);
    Word(m, 50, 0x74458547, 0x3afb5079, 0x4ebed41e, 0xb131c0f0, 0x626383a1);
    Word(m, 51, 0xda9415ed, 0x898e04e5, 0x626380a1, 0x16263bc6, 0x4ebf54de);
    Word(m, 52, 0x26380a16, 0xe2ba3c2b, 0x16263806, 0x4ebed41e, 0x3835b44b);
    Word(m, 53, 0x626383a1, 0x000060c0, 0x000018c0, 0x626380a1, 0x0000f600);
    Word(m, 54, 0x4ebf54de, 0x053a37cd, 0xd2e138c4, 0x16263806, 0x1e84c7a3);
    Word(m, 55, 0x3835b44b, 0x74458547, 0x00000f00, 0x000018c0, 0x98e04d98);
    Word(m, 56, 0x0000f600, 0xda9415ed, 0x3afb5079, 0xd2e138c4, 0x651d16a0);
    Word(m, 57, 0x1e84c7a3, 0x26380a16, 0x898e04e5, 0x00000f00, 0x62658ca1);
    Word(m, 58, 0x98e04d98, 0x626383a1, 0xe2ba3c2b, 0x3afb5079, 0x458544d6);
    Word(m, 59, 0x651d16a0, 0x4ebf54de, 0x000060c0, 0x898e04e5, 0x44584cb7);
    Word(m, 60, 0x62658ca1, 0x3835b44b, 0x053a37cd, 0xe2ba3c2b, 0x7ba06619);
    Word(m, 61, 0x458544d6, 0x0000f600, 0x74458547, 0x000060c0, 0x6380aea2);
    Word(m, 62, 0x44584cb7, 0x1e84c7a3, 0xda9415ed, 0x053a37cd, 0x0ae55269);
    Word(m, 63, 0x7ba06619, 0x98e04d98, 0x26380a16, 0x74458547, 0x627b49a1);
  }

  lemma Words4(m: Chunk)
    requires m == BIG_BLOCK
    ensures W(m, 64) == 0x7cd45c9d && W(m, 65) == 0x000f0000 && W(m, 66) == 0xfb50753a && W(m, 67) == 0xec6765e8
    ensures W(m, 68) == 0xba3c2be2 && W(m, 69) == 0x0060c000 && W(m, 70) == 0x3a37cd05 && W(m, 71) == 0x458546f4
    ensures W(m, 72) == 0xb8599dd6 && W(m, 73) == 0x380a1a26 && W(m, 74) == 0x01e02203 && W(m, 75) == 0xe7cc3456
    ensures W(m, 76) == 0xe6e60b69 && W(m, 77) == 0x00f60a00 && W(m, 78) == 0x5795ef4f && W(m, 79) == 0x822e0879
  {
    hide W;
    Words3(m);
    Word(m, 64, 0x6380aea2, 0x651d16a0, 0x626383a1, 0xda9415ed, 0x7cd45c9d);
    Word(m, 65, 0x0ae55269, 0x62658ca1, 0x4ebf54de, 0x26380a16, 0x000f0000);
    Word(m, 66, 0x627b49a1, 0x458544d6, 0x3835b44b, 0x626383a1, 0xfb50753a);
    Word(m, 67, 0x7cd45c9d, 0x44584cb7, 0x0000f600, 0x4ebf54de, 0xec6765e8);
    Word(m, 68, 0x000f0000, 0x7ba06619, 0x1e84c7a3, 0x3835b44b, 0xba3c2be2);
    Word(m, 69, 0xfb50753a, 0x6380aea2, 0x98e04d98, 0x0000f600, 0x0060c000);
    Word(m, 70, 0xec6765e8, 0x0ae55269, 0x651d16a0, 0x1e84c7a3, 0x3a37cd05);
    Word(m, 71, 0xba3c2be2, 0x627b49a1, 0x62658ca1, 0x98e04d98, 0x458546f4);
    Word(m, 72, 0x0060c000, 0x7cd45c9d, 0x458544d6, 0x651d16a0, 0xb8599dd6);
    Word(m, 73, 0x3a37cd05, 0x000f0000, 0x44584cb7, 0x62658ca1, 0x380a1a26);
    Word(m, 74, 0x458546f4, 0xfb50753a, 0x7ba06619, 0x458544d6, 0x01e02203);
    Word(m, 75, 0xb8599dd6, 0xec6765e8, 0x6380aea2, 0x44584cb7, 0xe7cc3456);
    Word(m, 76, 0x380a1a26, 0xba3c2be2, 0x0ae55269, 0x7ba06619, 0xe6e60b69);
    Word(m, 77, 0x01e02203, 0x0060c000, 0x627b49a1, 0x6380aea2, 0x00f60a00);
    Word(m, 78, 0xe7cc3456, 0x3a37cd05, 0x7cd45c9d, 0x0ae55269, 0x5795ef4f);
    Word(m, 79, 0xe6e60b69, 0x458546f4, 0x000f0000, 0x627b49a1, 0x822e0879);
  }

  lemma Rounds0(s: State, m: Chunk)
    requires s == INITIAL && m == BIG_BLOCK
    ensures Rounds(s, m, 8) == Registers(0x9e8c07d4, 0x993e30c1, 0x0ff1f290, 0xb3f52677, 0xf3763846)
  {
    hide W, Rounds;
    Words0(m);
    Start(s, m);
    Step(s, m, 0, 0x67452301, 0xefcdab89, 0x98badcfe, 0x10325476, 0xc3d2e1f0, 0x61626380,
      0xe8a4602c, 0x98badcfe, 0x0116fc33, 0x7bf36ae2);
    Step(s, m, 1, 0x0116fc33, 0x67452301, 0x7bf36ae2, 0x98badcfe, 0x10325476, 0x00000000,
      0x22df8660, 0xfbfbfefe, 0x8990536d, 0x59d148c0);
    Step(s, m, 2, 0x8990536d, 0x0116fc33, 0x59d148c0, 0x7bf36ae2, 0x98badcfe, 0x00000000,
      0x320a6db1, 0x7bf14ac0, 0xa1390f08, 0xc045bf0c);
    Step(s, m, 3, 0xa1390f08, 0x8990536d, 0xc045bf0c, 0x59d148c0, 0x7bf36ae2, 0x00000000,
      0x2721e114, 0xd0411b8c, 0xcdd8e11b, 0x626414db);
    Step(s, m, 4, 0xcdd8e11b, 0xa1390f08, 0x626414db, 0xc045bf0c, 0x59d148c0, 0x00000000,
      0xbb1c2379, 0x6064b40c, 0xcfd499de, 0x284e43c2);
    Step(s, m, 5, 0xcfd499de, 0xcdd8e11b, 0x284e43c2, 0x626414db, 0xc045bf0c, 0x00000000,
      0xfa933bd9, 0x2a6c55c2, 0x3fc7ca40, 0xf3763846);
    Step(s, m, 6, 0x3fc7ca40, 0xcfd499de, 0xf3763846, 0x284e43c2, 0x626414db, 0x00000000,
      0xf8f94807, 0xe35e5a46, 0x993e30c1, 0xb3f52677);
    Step(s, m, 7, 0x993e30c1, 0x3fc7ca40, 0xb3f52677, 0xf3763846, 0x284e43c2, 0x00000000,
      0x27c61833, 0xf3f53246, 0x9e8c07d4, 0x0ff1f290);
  }

  lemma Rounds1(s: State, m: Chunk)
    requires s == INITIAL && m == BIG_BLOCK
    ensures Rounds(s, m, 16) == Registers(0x20bdd62f, 0x196bee77, 0x644a3da5, 0x1181ed99, 0x18c623f9)
  {
    hide W, Rounds;
    Words0(m);
    Rounds0(s, m);
    Step(s, m, 8, 0x9e8c07d4, 0x993e30c1, 0x0ff1f290, 0xb3f52677, 0xf3763846, 0x00000000,
      0xd180fa93, 0x2bf136b6, 0x4b6ae328, 0x664f8c30);
    Step(s, m, 9, 0x4b6ae328, 0x9e8c07d4, 0x664f8c30, 0x0ff1f290, 0xb3f52677, 0x00000000,
      0x6d5c6509, 0x077df410, 0x8351f929, 0x27a301f5);
    Step(s, m, 10, 0x8351f929, 0x4b6ae328, 0x27a301f5, 0x664f8c30, 0x0ff1f290, 0x00000000,
      0x6a3f2530, 0x27270d30, 0xfbda9e89, 0x12dab8ca);
    Step(s, m, 11, 0xfbda9e89, 0x8351f929, 0x12dab8ca, 0x27a301f5, 0x664f8c30, 0x00000000,
      0x7b53d13f, 0x26f2b8dc, 0x63188fe4, 0x60d47e4a);
    Step(s, m, 12, 0x63188fe4, 0xfbda9e89, 0x60d47e4a, 0x12dab8ca, 0x27a301f5, 0x00000000,
      0x6311fc8c, 0x60d03e4a, 0x4607b664, 0x7ef6a7a2);
    Step(s, m, 13, 0x4607b664, 0x63188fe4, 0x7ef6a7a2, 0x60d47e4a, 0x12dab8ca, 0x00000000,
      0xc0f6cc88, 0x62d4f7aa, 0x9128f695, 0x18c623f9);
    Step(s, m, 14, 0x9128f695, 0x4607b664, 0x18c623f9, 0x7ef6a7a2, 0x60d47e4a, 0x00000000,
      0x251ed2b2, 0x38f623e2, 0x196bee77, 0x1181ed99);
    Step(s, m, 15, 0x196bee77, 0x9128f695, 0x1181ed99, 0x18c623f9, 0x7ef6a7a2, 0x00000018,
      0x2d7dcee3, 0x19c6e5f9, 0x20bdd62f, 0x644a3da5);
  }

  lemma Rounds2(s: State, m: Chunk)
    requires s == INITIAL && m == BIG_BLOCK
    ensures Rounds(s, m, 24) == Registers(0xd541f12d, 0x21283486, 0x0ce88eff, 0x868dec32, 0x7f67875f)
  {
    hide W, Rounds;
    Words1(m);
    Rounds1(s, m);
    Step(s, m, 16, 0x20bdd62f, 0x196bee77, 0x644a3da5, 0x1181ed99, 0x18c623f9, 0xc2c4c700,
      0x17bac5e4, 0x00ca2dad, 0x4e925823, 0xc65afb9d);
    Step(s, m, 17, 0x4e925823, 0x20bdd62f, 0xc65afb9d, 0x644a3da5, 0x1181ed99, 0x00000000,
      0xd24b0469, 0x445afb8d, 0x82aa6728, 0xc82f758b);
    Step(s, m, 18, 0x82aa6728, 0x4e925823, 0xc82f758b, 0xc65afb9d, 0x644a3da5, 0x00000030,
      0x554ce510, 0xc84af39f, 0xdc64901d, 0xd3a49608);
    Step(s, m, 19, 0xdc64901d, 0x82aa6728, 0xd3a49608, 0xc82f758b, 0xc65afb9d, 0x85898e01,
      0x8c9203bb, 0xcaa5168b, 0xfd9e1d7d, 0x20aa99ca);
    Step(s, m, 20, 0xfd9e1d7d, 0xdc64901d, 0x20aa99ca, 0xd3a49608, 0xc82f758b, 0x00000000,
      0xb3c3afbf, 0x2f6a9fdf, 0x1a37b0ca, 0x77192407);
    Step(s, m, 21, 0x1a37b0ca, 0xfd9e1d7d, 0x77192407, 0x20aa99ca, 0xd3a49608, 0x00000060,
      0x46f61943, 0xaa2da0b0, 0x33a23bfc, 0x7f67875f);
    Step(s, m, 22, 0x33a23bfc, 0x1a37b0ca, 0x7f67875f, 0x77192407, 0x20aa99ca, 0x0b131c03,
      0x74477f86, 0x12491392, 0x21283486, 0x868dec32);
    Step(s, m, 23, 0x21283486, 0x33a23bfc, 0x868dec32, 0x7f67875f, 0x77192407, 0x00000030,
      0x250690c4, 0xca485091, 0xd541f12d, 0x0ce88eff);
  }

  lemma Rounds3(s: State, m: Chunk)
    requires s == INITIAL && m == BIG_BLOCK
    ensures Rounds(s, m, 32) == Registers(0x3b845d33, 0x1267b407, 0x717eebd7, 0xa0dc2d4b, 0xd2aa1365)
  {
    hide W, Rounds;
    Words1(m);
    Rounds2(s, m);
    Step(s, m, 24, 0xd541f12d, 0x21283486, 0x0ce88eff, 0x868dec32, 0x7f67875f, 0x85898ec1,
      0xa83e25ba, 0xab4d564b, 0xc7567dc6, 0x884a0d21);
    Step(s, m, 25, 0xc7567dc6, 0xd541f12d, 0x884a0d21, 0x0ce88eff, 0x868dec32, 0x16263806,
      0xeacfb8d8, 0x51e372f3, 0x48413ba4, 0x75507c4b);
    Step(s, m, 26, 0x48413ba4, 0xc7567dc6, 0x75507c4b, 0x884a0d21, 0x0ce88eff, 0x00000000,
      0x08277489, 0x3a4c0cac, 0xbe35fbd5, 0xb1d59f71);
    Step(s, m, 27, 0xbe35fbd5, 0x48413ba4, 0xb1d59f71, 0x75507c4b, 0x884a0d21, 0x00000180,
      0xc6bf7ab7, 0x8cc4d89e, 0x4aa84d97, 0x12104ee9);
    Step(s, m, 28, 0x4aa84d97, 0xbe35fbd5, 0x12104ee9, 0xb1d59f71, 0x75507c4b, 0x2c4c700c,
      0x5509b2e9, 0x1df02a4d, 0x8370b52e, 0x6f8d7ef5);
    Step(s, m, 29, 0x8370b52e, 0x4aa84d97, 0x6f8d7ef5, 0x12104ee9, 0xb1d59f71, 0x000000f0,
      0x6e16a5d0, 0x37357d8b, 0xc5fbaf5d, 0xd2aa1365);
    Step(s, m, 30, 0xc5fbaf5d, 0x8370b52e, 0xd2aa1365, 0x6f8d7ef5, 0x12104ee9, 0x93afb507,
      0xbf75ebb8, 0x3e57d8be, 0x1267b407, 0xa0dc2d4b);
    Step(s, m, 31, 0x1267b407, 0xc5fbaf5d, 0xa0dc2d4b, 0xd2aa1365, 0x6f8d7ef5, 0x5898e048,
      0x4cf680e2, 0xb78d9173, 0x3b845d33, 0x717eebd7);
  }

  lemma Rounds4(s: State, m: Chunk)
    requires s == INITIAL && m == BIG_BLOCK
    ensures Rounds(s, m, 40) == Registers(0x32de1cba, 0x4c986405, 0xf718e5cf, 0x03d447f6, 0xf72eec32)
  {
    hide W, Rounds;
    Words2(m);
    Rounds3(s, m);
    Step(s, m, 32, 0x3b845d33, 0x1267b407, 0x717eebd7, 0xa0dc2d4b, 0xd2aa1365, 0x8e9a9202,
      0x708ba667, 0xc3c5729b, 0x046faa0a, 0xc499ed01);
    Step(s, m, 33, 0x046faa0a, 0x3b845d33, 0xc499ed01, 0x717eebd7, 0xa0dc2d4b, 0x00000600,
      0x8df54140, 0x8e635be5, 0x2c0ebc11, 0xcee1174c);
    Step(s, m, 34, 0x2c0ebc11, 0x046faa0a, 0xcee1174c, 0xc499ed01, 0x717eebd7, 0xb131c0f0,
      0x81d78225, 0x0e175047, 0x21796ad4, 0x811bea82);
    Step(s, m, 35, 0x21796ad4, 0x2c0ebc11, 0x811bea82, 0xcee1174c, 0xc499ed01, 0x16263bc6,
      0x2f2d5a84, 0x63f441df, 0xdcbbb0cb, 0x4b03af04);
    Step(s, m, 36, 0xdcbbb0cb, 0x21796ad4, 0x4b03af04, 0x811bea82, 0xcee1174c, 0x4ebed41e,
      0x9776197b, 0xeb612f52, 0x0f511fd8, 0x085e5ab5);
    Step(s, m, 37, 0x0f511fd8, 0xdcbbb0cb, 0x085e5ab5, 0x4b03af04, 0x811bea82, 0x626380a1,
      0xea23fb01, 0x9fe6457a, 0xdc63973f, 0xf72eec32);
    Step(s, m, 38, 0xdc63973f, 0x0f511fd8, 0xf72eec32, 0x085e5ab5, 0x4b03af04, 0x16263806,
      0x8c72e7fb, 0xf021a95f, 0x4c986405, 0x03d447f6);
    Step(s, m, 39, 0x4c986405, 0xdc63973f, 0x03d447f6, 0xf72eec32, 0x085e5ab5, 0x000018c0,
      0x930c80a9, 0x28993cfb, 0x32de1cba, 0xf718e5cf);
  }

  lemma Rounds5(s: State, m: Chunk)
    requires s == INITIAL && m == BIG_BLOCK
    ensures Rounds(s, m, 48) == Registers(0xbead02ca, 0xa01b846c, 0x8714787c, 0x503ca382, 0xfb86c6ab)
  {
    hide W, Rounds;
    Words2(m);
    Rounds4(s, m);
    Step(s, m, 40, 0x32de1cba, 0x4c986405, 0xf718e5cf, 0x03d447f6, 0xf72eec32, 0xd2e138c4,
      0x5bc39746, 0x479865c7, 0xfc87dedf, 0x53261901);
    Step(s, m, 41, 0xfc87dedf, 0x32de1cba, 0x53261901, 0xf718e5cf, 0x03d447f6, 0x00000f00,
      0x90fbdbff, 0x731e1d8b, 0x970a0d5c, 0x8cb7872e);
    Step(s, m, 42, 0x970a0d5c, 0xfc87dedf, 0x8cb7872e, 0x53261901, 0xf718e5cf, 0x3afb5079,
      0xe141ab92, 0xdca79f0f, 0x7f193dc5, 0xff21f7b7);
    Step(s, m, 43, 0x7f193dc5, 0x970a0d5c, 0xff21f7b7, 0x8cb7872e, 0x53261901, 0x898e04e5,
      0xe327b8af, 0x9f23873e, 0xee1b1aaf, 0x25c28357);
    Step(s, m, 44, 0xee1b1aaf, 0x7f193dc5, 0x25c28357, 0xff21f7b7, 0x8cb7872e, 0xe2ba3c2b,
      0xc36355fd, 0x7f01b7d7, 0x40f28e09, 0x5fc64f71);
    Step(s, m, 45, 0x40f28e09, 0xee1b1aaf, 0x5fc64f71, 0x25c28357, 0xff21f7b7, 0x000060c0,
      0x1e51c128, 0x6fc20b77, 0x1c51e1f2, 0xfb86c6ab);
    Step(s, m, 46, 0x1c51e1f2, 0x40f28e09, 0xfb86c6ab, 0x5fc64f71, 0x25c28357, 0x053a37cd,
      0x8a3c3e43, 0x5bc6ce29, 0xa01b846c, 0x503ca382);
    Step(s, m, 47, 0xa01b846c, 0x1c51e1f2, 0x503ca382, 0xfb86c6ab, 0x5fc64f71, 0x74458547,
      0x03708d94, 0x5814e3a2, 0xbead02ca, 0x8714787c);
  }

  lemma Rounds6(s: State, m: Chunk)
    requires s == INITIAL && m == BIG_BLOCK
    ensures Rounds(s, m, 56) == Registers(0x5e6456af, 0x7b71f76d, 0x09fa7c76, 0x792410db, 0x8e11eb59)
  {
    hide W, Rounds;
    Words3(m);
    Rounds5(s, m);
    Step(s, m, 48, 0xbead02ca, 0xa01b846c, 0x8714787c, 0x503ca382, 0xfb86c6ab, 0xda9415ed,
      0xd5a05957, 0x801ca06c, 0xbaf39337, 0x2806e11b);
    Step(s, m, 49, 0xbaf39337, 0xbead02ca, 0x2806e11b, 0x8714787c, 0x503ca382, 0x26380a16,
      0x5e7266f7, 0xae04605a, 0x120731c5, 0xafab40b2);
    Step(s, m, 50, 0x120731c5, 0xbaf39337, 0xafab40b2, 0x2806e11b, 0x8714787c, 0x626383a1,
      0x40e638a2, 0xaaa3c133, 0x641db2ce, 0xeebce4cd);
    Step(s, m, 51, 0x641db2ce, 0x120731c5, 0xeebce4cd, 0xafab40b2, 0x2806e11b, 0x4ebf54de,
      0x83b659cc, 0xaeaf60c5, 0x3847ad66, 0x4481cc71);
    Step(s, m, 52, 0x3847ad66, 0x641db2ce, 0x4481cc71, 0xeebce4cd, 0xafab40b2, 0x3835b44b,
      0x08f5acc7, 0x649de4cd, 0xe490436d, 0x99076cb3);
    Step(s, m, 53, 0xe490436d, 0x3847ad66, 0x99076cb3, 0x4481cc71, 0xeebce4cd, 0x0000f600,
      0x92086dbc, 0x1807ec73, 0x27e9f1d8, 0x8e11eb59);
    Step(s, m, 54, 0x27e9f1d8, 0xe490436d, 0x8e11eb59, 0x99076cb3, 0x4481cc71, 0x1e84c7a3,
      0xfd3e3b04, 0x8c116b79, 0x7b71f76d, 0x792410db);
    Step(s, m, 55, 0x7b71f76d, 0x27e9f1d8, 0x792410db, 0x8e11eb59, 0x99076cb3, 0x98e04d98,
      0x6e3eedaf, 0x2f21f1d9, 0x5e6456af, 0x09fa7c76);
  }

  lemma Rounds7(s: State, m: Chunk)
    requires s == INITIAL && m == BIG_BLOCK
    ensures Rounds(s, m, 64) == Registers(0x6b61c9e1, 0xb66c020b, 0x9523272c, 0xf5d5b051, 0x8fd4b796)
  {
    hide W, Rounds;
    Words3(m);
    Rounds6(s, m);
    Step(s, m, 56, 0x5e6456af, 0x7b71f76d, 0x09fa7c76, 0x792410db, 0x8e11eb59, 0x651d16a0,
      0xcc8ad5eb, 0x7970747f, 0xc846093f, 0x5edc7ddb);
    Step(s, m, 57, 0xc846093f, 0x5e6456af, 0x5edc7ddb, 0x09fa7c76, 0x792410db, 0x62658ca1,
      0x08c127f9, 0x5efc7cff, 0xd262ff50, 0xd79915ab);
    Step(s, m, 58, 0xd262ff50, 0xc846093f, 0xd79915ab, 0x5edc7ddb, 0x09fa7c76, 0x458544d6,
      0x4c5fea1a, 0xdedc1dbb, 0x09d785fd, 0xf211824f);
    Step(s, m, 59, 0x09d785fd, 0xd262ff50, 0xf211824f, 0xd79915ab, 0x5edc7ddb, 0x44584cb7,
      0x3af0bfa1, 0xd211974b, 0x3f52de5a, 0x3498bfd4);
    Step(s, m, 60, 0x3f52de5a, 0x09d785fd, 0x3498bfd4, 0xf211824f, 0xd79915ab, 0x7ba06619,
      0xea5bcb47, 0xcf5eb866, 0xd756c147, 0x4275e17f);
    Step(s, m, 61, 0xd756c147, 0x3f52de5a, 0x4275e17f, 0x3498bfd4, 0xf211824f, 0x6380aea2,
      0xead828fa, 0x49bf80f1, 0x548c9cb2, 0x8fd4b796);
    Step(s, m, 62, 0x548c9cb2, 0xd756c147, 0x8fd4b796, 0x4275e17f, 0x3498bfd4, 0x0ae55269,
      0x9193964a, 0x1af797ae, 0xb66c020b, 0xf5d5b051);
    Step(s, m, 63, 0xb66c020b, 0x548c9cb2, 0xf5d5b051, 0x8fd4b796, 0x4275e17f, 0x627b49a1,
      0xcd804176, 0x2e8d9b75, 0x6b61c9e1, 0x9523272c);
  }

  lemma Rounds8(s: State, m: Chunk)
    requires s == INITIAL && m == BIG_BLOCK
    ensures Rounds(s, m, 72) == Registers(0x39859de7, 0xc199f8c7, 0x8fc96230, 0x125c24f0, 0xde37534a)
  {
    hide W, Rounds;
    Words4(m);
    Rounds7(s, m);
    Step(s, m, 64, 0x6b61c9e1, 0xb66c020b, 0x9523272c, 0xf5d5b051, 0x8fd4b796, 0x7cd45c9d,
      0x6c393c2d, 0xd69a9576, 0x19dfa7ac, 0xed9b0082);
    Step(s, m, 65, 0x19dfa7ac, 0x6b61c9e1, 0xed9b0082, 0x9523272c, 0xf5d5b051, 0x000f0000,
      0x3bf4f583, 0x13d9ee4f, 0x101655f9, 0x5ad87278);
    Step(s, m, 66, 0x101655f9, 0x19dfa7ac, 0x5ad87278, 0xed9b0082, 0x9523272c, 0xfb50753a,
      0x02cabf22, 0xae9cd556, 0x0c3df2b4, 0x0677e9eb);
    Step(s, m, 67, 0x0c3df2b4, 0x101655f9, 0x0677e9eb, 0x5ad87278, 0xed9b0082, 0xec6765e8,
      0x87be5681, 0x4cb9ce6a, 0x78dd4d2b, 0x4405957e);
    Step(s, m, 68, 0x78dd4d2b, 0x0c3df2b4, 0x4405957e, 0x0677e9eb, 0x5ad87278, 0xba3c2be2,
      0x1ba9a56f, 0x4e4f8e21, 0x497093c0, 0x030f7cad);
    Step(s, m, 69, 0x497093c0, 0x78dd4d2b, 0x030f7cad, 0x4405957e, 0x0677e9eb, 0x0060c000,
      0x2e127809, 0x3fd7a4f8, 0x3f2588c2, 0xde37534a);
    Step(s, m, 70, 0x3f2588c2, 0x497093c0, 0xde37534a, 0x030f7cad, 0x4405957e, 0x3a37cd05,
      0xe4b11847, 0x9448bc27, 0xc199f8c7, 0x125c24f0);
    Step(s, m, 71, 0xc199f8c7, 0x3f2588c2, 0x125c24f0, 0xde37534a, 0x030f7cad, 0x458546f4,
      0x333f18f8, 0xf34eff78, 0x39859de7, 0x8fc96230);
  }

  lemma Rounds9(s: State, m: Chunk)
    requires s == INITIAL && m == BIG_BLOCK
    ensures Rounds(s, m, 80) == Registers(0x42541b35, 0x5738d5e1, 0x21834873, 0x681e6df6, 0xd8fdf6ad)
  {
    hide W, Rounds;
    Words4(m);
    Rounds8(s, m);
    Step(s, m, 72, 0x39859de7, 0xc199f8c7, 0x8fc96230, 0x125c24f0, 0xde37534a, 0xb8599dd6,
      0x30b3bce7, 0x5c0cbe07, 0xedb42de4, 0xf0667e31);
    Step(s, m, 73, 0xedb42de4, 0x39859de7, 0xf0667e31, 0x8fc96230, 0x125c24f0, 0x380a1a26,
      0xb685bc9d, 0x462a81e6, 0x11793f6f, 0xce616779);
    Step(s, m, 74, 0x11793f6f, 0xedb42de4, 0xce616779, 0xf0667e31, 0x8fc96230, 0x01e02203,
      0x2f27ede2, 0xd3b334ac, 0x5ee76897, 0x3b6d0b79);
    Step(s, m, 75, 0x5ee76897, 0x11793f6f, 0x3b6d0b79, 0xce616779, 0xf0667e31, 0xe7cc3456,
      0xdced12eb, 0xe475536f, 0x63f7dab7, 0xc45e4fdb);
    Step(s, m, 76, 0x63f7dab7, 0x5ee76897, 0xc45e4fdb, 0x3b6d0b79, 0xce616779, 0xe6e60b69,
      0x7efb56ec, 0xa1d42c35, 0xa079b7d9, 0xd7b9da25);
    Step(s, m, 77, 0xa079b7d9, 0x63f7dab7, 0xd7b9da25, 0xc45e4fdb, 0x3b6d0b79, 0x00f60a00,
      0x0f36fb34, 0x70104f49, 0x860d21cc, 0xd8fdf6ad);
    Step(s, m, 78, 0x860d21cc, 0xa079b7d9, 0xd8fdf6ad, 0xd7b9da25, 0xc45e4fdb, 0x5795ef4f,
      0xc1a43990, 0xaf3d9b51, 0x5738d5e1, 0x681e6df6);
    Step(s, m, 79, 0x5738d5e1, 0x860d21cc, 0x681e6df6, 0xd8fdf6ad, 0xd7b9da25, 0x822e0879,
      0xe71abc2a, 0x36eeba97, 0x42541b35, 0x21834873);
  }

  const HASH: seq<bv8> := [0xa9, 0x99, 0x3e, 0x36] + [0x47, 0x06, 0x81, 0x6a] + [0xba, 0x3e, 0x25, 0x71]
    + [0x78, 0x50, 0xc2, 0x6c] + [0x9c, 0xd0, 0xd8, 0x9d]

  lemma WordBytes()
    ensures BigBytes(0xa9993e36) == [0xa9, 0x99, 0x3e, 0x36] && BigBytes(0x4706816a) == [0x47, 0x06, 0x81, 0x6a]
    ensures BigBytes(0xba3e2571) == [0xba, 0x3e, 0x25, 0x71] && BigBytes(0x7850c26c) == [0x78, 0x50, 0xc2, 0x6c]
    ensures BigBytes(0x9cd0d89d) == [0x9c, 0xd0, 0xd8, 0x9d]
  {
  }

  lemma Totals(s: State)
    requires s == INITIAL
    ensures Sum(s, Registers(0x42541b35, 0x5738d5e1, 0x21834873, 0x681e6df6, 0xd8fdf6ad))
         == [0xa9993e36, 0x4706816a, 0xba3e2571, 0x7850c26c, 0x9cd0d89d]
  {
    Initials();
  }

  lemma DigestBytes(xs: seq<bv32>)
    requires xs == [0xa9993e36, 0x4706816a, 0xba3e2571, 0x7850c26c, 0x9cd0d89d]
    ensures BigAll(xs) == HASH
  {
    WordBytes();
    hide BigBytes, BigAll;
    BigNext(xs, 0);
    BigNext(xs, 1);
    BigNext(xs, 2);
    BigNext(xs, 3);
    BigNext(xs, 4);
    assert xs[..5] == xs;
  }

  lemma OneBlock(s: State, b: Chunk)
    ensures Fold<State>(Compress, s, b) == Compress(s, b)
  {
    hide Compress;
    assert b + [] == b;
    FoldBlock<State>(Compress, s, b, []);
    FoldShort<State>(Compress, Compress(s, b), []);
  }

  lemma Example()
    ensures Digest(ABC) == HASH
  {
    Padded();
    Rounds9(INITIAL, BIG_BLOCK);
    Totals(INITIAL);
    hide Rounds, Sum, Padding, BigLength, BitLength, BigAll;
    CompressIs(INITIAL, BIG_BLOCK);
    OneBlock(INITIAL, BIG_BLOCK);
    DigestBytes(Compress(INITIAL, BIG_BLOCK));
  }
}
