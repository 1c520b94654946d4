/** An example of MD5: "abc", of RFC 1321 section A.5. */
module Md5Example {
  import opened Words
  import opened BlockStream
  import opened AbcMessage
  import opened Md5

  lemma Initials()
    ensures INITIAL[0] == 0x67452301 && INITIAL[1] == 0xefcdab89 && INITIAL[2] == 0x98badcfe
    ensures INITIAL[3] == 0x10325476
  {
  }

  lemma Block(m: Chunk)
    requires m == LITTLE_BLOCK
    ensures X(m, 0) == 0x80636261 && X(m, 1) == 0 && X(m, 2) == 0 && X(m, 3) == 0 && X(m, 4) == 0 && X(m, 5) == 0
    ensures X(m, 6) == 0 && X(m, 7) == 0 && X(m, 8) == 0 && X(m, 9) == 0 && X(m, 10) == 0 && X(m, 11) == 0
    ensures X(m, 12) == 0 && X(m, 13) == 0 && X(m, 14) == 24 && X(m, 15) == 0
  {
  }

  lemma Sines0()
    ensures Sine(0) == 0xd76aa478 && Sine(1) == 0xe8c7b756 && Sine(2) == 0x242070db && Sine(3) == 0xc1bdceee
    ensures Sine(4) == 0xf57c0faf && Sine(5) == 0x4787c62a && Sine(6) == 0xa8304613 && Sine(7) == 0xfd469501
  {
  }

  lemma Places0()
    ensures Shift(0) == 7 && Place(0) == 0 && Shift(1) == 12 && Place(1) == 1 && Shift(2) == 17 && Place(2) == 2
    ensures Shift(3) == 22 && Place(3) == 3 && Shift(4) == 7 && Place(4) == 4 && Shift(5) == 12 && Place(5) == 5
    ensures Shift(6) == 17 && Place(6) == 6 && Shift(7) == 22 && Place(7) == 7
  {
  }

  lemma Sines1()
    ensures Sine(8) == 0x698098d8 && Sine(9) == 0x8b44f7af && Sine(10) == 0xffff5bb1 && Sine(11) == 0x895cd7be
    ensures Sine(12) == 0x6b901122 && Sine(13) == 0xfd987193 && Sine(14) == 0xa679438e && Sine(15) == 0x49b40821
  {
  }

  lemma Places1()
    ensures Shift(8) == 7 && Place(8) == 8 && Shift(9) == 12 && Place(9) == 9 && Shift(10) == 17 && Place(10) == 10
    ensures Shift(11) == 22 && Place(11) == 11 && Shift(12) == 7 && Place(12) == 12 && Shift(13) == 12
    ensures Place(13) == 13
    ensures Shift(14) == 17 && Place(14) == 14 && Shift(15) == 22 && Place(15) == 15
  {
  }

  lemma Sines2()
    ensures Sine(16) == 0xf61e2562 && Sine(17) == 0xc040b340 && Sine(18) == 0x265e5a51 && Sine(19) == 0xe9b6c7aa
    ensures Sine(20) == 0xd62f105d && Sine(21) == 0x02441453 && Sine(22) == 0xd8a1e681 && Sine(23) == 0xe7d3fbc8
  {
  }

  lemma Places2()
    ensures Shift(16) == 5 && Place(16) == 1 && Shift(17) == 9 && Place(17) == 6 && Shift(18) == 14 && Place(18) == 11
    ensures Shift(19) == 20 && Place(19) == 0 && Shift(20) == 5 && Place(20) == 5 && Shift(21) == 9 && Place(21) == 10
    ensures Shift(22) == 14 && Place(22) == 15 && Shift(23) == 20 && Place(23) == 4
  {
  }

  lemma Sines3()
    ensures Sine(24) == 0x21e1cde6 && Sine(25) == 0xc33707d6 && Sine(26) == 0xf4d50d87 && Sine(27) == 0x455a14ed
    ensures Sine(28) == 0xa9e3e905 && Sine(29) == 0xfcefa3f8 && Sine(30) == 0x676f02d9 && Sine(31) == 0x8d2a4c8a
  {
  }

  lemma Places3()
    ensures Shift(24) == 5 && Place(24) == 9 && Shift(25) == 9 && Place(25) == 14 && Shift(26) == 14 && Place(26) == 3
    ensures Shift(27) == 20 && Place(27) == 8 && Shift(28) == 5 && Place(28) == 13 && Shift(29) == 9 && Place(29) == 2
    ensures Shift(30) == 14 && Place(30) == 7 && Shift(31) == 20 && Place(31) == 12
  {
  }

  lemma Sines4()
    ensures Sine(32) == 0xfffa3942 && Sine(33) == 0x8771f681 && Sine(34) == 0x6d9d6122 && Sine(35) == 0xfde5380c
    ensures Sine(36) == 0xa4beea44 && Sine(37) == 0x4bdecfa9 && Sine(38) == 0xf6bb4b60 && Sine(39) == 0xbebfbc70
  {
  }

  lemma Places4()
    ensures Shift(32) == 4 && Place(32) == 5 && Shift(33) == 11 && Place(33) == 8 && Shift(34) == 16 && Place(34) == 11
    ensures Shift(35) == 23 && Place(35) == 14 && Shift(36) == 4 && Place(36) == 1 && Shift(37) == 11 && Place(37) == 4
    ensures Shift(38) == 16 && Place(38) == 7 && Shift(39) == 23 && Place(39) == 10
  {
  }

  lemma Sines5()
    ensures Sine(40) == 0x289b7ec6 && Sine(41) == 0xeaa127fa && Sine(42) == 0xd4ef3085 && Sine(43) == 0x04881d05
    ensures Sine(44) == 0xd9d4d039 && Sine(45) == 0xe6db99e5 && Sine(46) == 0x1fa27cf8 && Sine(47) == 0xc4ac5665
  {
  }

  lemma Places5()
    ensures Shift(40) == 4 && Place(40) == 13 && Shift(41) == 11 && Place(41) == 0 && Shift(42) == 16 && Place(42) == 3
    ensures Shift(43) == 23 && Place(43) == 6 && Shift(44) == 4 && Place(44) == 9 && Shift(45) == 11 && Place(45) == 12
    ensures Shift(46) == 16 && Place(46) == 15 && Shift(47) == 23 && Place(47) == 2
  {
  }

  lemma Sines6()
    ensures Sine(48) == 0xf4292244 && Sine(49) == 0x432aff97 && Sine(50) == 0xab9423a7 && Sine(51) == 0xfc93a039
    ensures Sine(52) == 0x655b59c3 && Sine(53) == 0x8f0ccc92 && Sine(54) == 0xffeff47d && Sine(55) == 0x85845dd1
  {
  }

  lemma Places6()
    ensures Shift(48) == 6 && Place(48) == 0 && Shift(49) == 10 && Place(49) == 7 && Shift(50) == 15 && Place(50) == 14
    ensures Shift(51) == 21 && Place(51) == 5 && Shift(52) == 6 && Place(52) == 12 && Shift(53) == 10 && Place(53) == 3
    ensures Shift(54) == 15 && Place(54) == 10 && Shift(55) == 21 && Place(55) == 1
  {
  }

  lemma Sines7()
    ensures Sine(56) == 0x6fa87e4f && Sine(57) == 0xfe2ce6e0 && Sine(58) == 0xa3014314 && Sine(59) == 0x4e0811a1
    ensures Sine(60) == 0xf7537e82 && Sine(61) == 0xbd3af235 && Sine(62) == 0x2ad7d2bb && Sine(63) == 0xeb86d391
  {
  }

  lemma Places7()
    ensures Shift(56) == 6 && Place(56) == 8 && Shift(57) == 10 && Place(57) == 15 && Shift(58) == 15 && Place(58) == 6
    ensures Shift(59) == 21 && Place(59) == 13 && Shift(60) == 6 && Place(60) == 4 && Shift(61) == 10 && Place(61) == 11
    ensures Shift(62) == 15 && Place(62) == 2 && Shift(63) == 21 && Place(63) == 9
  {
  }

  /** What the function gives, q; the sum u; v, which is u turned by n; and the new register y. */
  predicate StepOk(t: nat, a: bv32, b: bv32, c: bv32, d: bv32, x: bv32, k: bv32, n: nat, q: bv32, u: bv32, v: bv32,
                   y: bv32)
    requires n <= 32
  {
    Mix(t, b, c, d) == q && Total(a, q, x, k) == u && Rol(u, n) == v && Plus(b, v) == y
  }

  lemma Next(s: State, m: Chunk, t: nat, a: bv32, b: bv32, c: bv32, d: bv32, j: nat, x: bv32, k: bv32, n: nat, q: bv32,
             u: bv32, v: bv32, y: bv32)
    requires t < 64 && Steps(s, m, t) == Registers(a, b, c, d) && Place(t) == j && j < 16 && X(m, j) == x
    requires Sine(t) == k && Shift(t) == n && n <= 32 && StepOk(t, a, b, c, d, x, k, n, q, u, v, y)
    ensures Steps(s, m, t + 1) == Registers(d, y, b, c)
  {
    hide X, Sine, Shift, Place, Steps, Step, Rol, Mix, Total, Plus;
    StepsNext(s, m, t);
    StepIs(a, b, c, d, x, t);
  }

  lemma Start(s: State, m: Chunk)
    requires s == INITIAL
    ensures Steps(s, m, 0) == Registers(0x67452301, 0xefcdab89, 0x98badcfe, 0x10325476)
  {
    Initials();
    NoSteps(s, m);
    hide Steps;
  }

  lemma Steps0(s: State, m: Chunk)
    requires s == INITIAL && m == LITTLE_BLOCK
    ensures Steps(s, m, 8) == Registers(0xc73741ef, 0x928d99f6, 0x207dc67b, 0x8bac3051)
  {
    Block(m);
    hide X, Sine, Shift, Place, Steps;
    Sines0();
    Places0();
    Start(s, m);
    Next(s, m, 0, 0x67452301, 0xefcdab89, 0x98badcfe, 0x10325476, 0, 0x80636261, 0xd76aa478,
      7, 0x98badcfe, 0x57ce06d8, 0xe7036c2b, 0xd6d117b4);
    Next(s, m, 1, 0x10325476, 0xd6d117b4, 0xefcdab89, 0x98badcfe, 1, 0x00000000, 0xe8c7b756,
      12, 0xceebcbca, 0xc7e5d796, 0x5d796c7e, 0x344a8432);
    Next(s, m, 2, 0x98badcfe, 0x344a8432, 0xd6d117b4, 0xefcdab89, 2, 0x00000000, 0x242070db,
      17, 0xdfc52fb9, 0x9ca07d92, 0xfb253940, 0x2f6fbd72);
    Next(s, m, 3, 0xefcdab89, 0x2f6fbd72, 0x344a8432, 0xd6d117b4, 3, 0x00000000, 0xc1bdceee,
      22, 0xf4da86b6, 0xa666012d, 0x4b699980, 0x7ad956f2);
    Next(s, m, 4, 0xd6d117b4, 0x7ad956f2, 0x2f6fbd72, 0x344a8432, 4, 0x00000000, 0xf57c0faf,
      7, 0x2e4b9472, 0xfa98bbd5, 0x4c5deafd, 0xc73741ef);
    Next(s, m, 5, 0x344a8432, 0xc73741ef, 0x7ad956f2, 0x2f6fbd72, 5, 0x00000000, 0x4787c62a,
      12, 0x6a59fcf2, 0xe62c474e, 0xc474ee62, 0x8bac3051);
    Next(s, m, 6, 0x2f6fbd72, 0x8bac3051, 0xc73741ef, 0x7ad956f2, 6, 0x00000000, 0xa8304613,
      17, 0xf37546e3, 0xcb154a68, 0x94d1962a, 0x207dc67b);
    Next(s, m, 7, 0x7ad956f2, 0x207dc67b, 0x8bac3051, 0xc73741ef, 7, 0x00000000, 0xfd469501,
      22, 0xc72e01d5, 0x3f4dedc8, 0x720fd37b, 0x928d99f6);
  }

  lemma Steps1(s: State, m: Chunk)
    requires s == INITIAL && m == LITTLE_BLOCK
    ensures Steps(s, m, 16) == Registers(0xdda9b9a6, 0x72aff2e0, 0xe396856b, 0xa1051895)
  {
    Block(m);
    hide X, Sine, Shift, Place, Steps;
    Sines1();
    Places1();
    Steps0(s, m);
    Next(s, m, 8, 0xc73741ef, 0x928d99f6, 0x207dc67b, 0x8bac3051, 8, 0x00000000, 0x698098d8,
      7, 0x092da073, 0x39e57b3a, 0xf2bd9d1c, 0x854b3712);
    Next(s, m, 9, 0x8bac3051, 0x854b3712, 0x928d99f6, 0x207dc67b, 9, 0x00000000, 0x8b44f7af,
      12, 0xa03dd17b, 0xb72ef97b, 0xef97bb72, 0x74e2f284);
    Next(s, m, 10, 0x207dc67b, 0x74e2f284, 0x854b3712, 0x928d99f6, 10, 0x00000000, 0xffff5bb1,
      17, 0x864f3b72, 0xa6cc5d9e, 0xbb3d4d98, 0x3020401c);
    Next(s, m, 11, 0x928d99f6, 0x3020401c, 0x74e2f284, 0x854b3712, 11, 0x00000000, 0x895cd7be,
      22, 0xb56b7706, 0xd155e8ba, 0x2eb4557a, 0x5ed49596);
    Next(s, m, 12, 0x854b3712, 0x5ed49596, 0x3020401c, 0x74e2f284, 12, 0x00000000, 0x6b901122,
      7, 0x30226214, 0x20fdaa48, 0x7ed52410, 0xdda9b9a6);
    Next(s, m, 13, 0x74e2f284, 0xdda9b9a6, 0x5ed49596, 0x3020401c, 13, 0x00000000, 0xfd987193,
      12, 0x7c80d19e, 0xeefc35b5, 0xc35b5eef, 0xa1051895);
    Next(s, m, 14, 0x3020401c, 0xa1051895, 0xdda9b9a6, 0x5ed49596, 14, 0x00000018, 0xa679438e,
      17, 0xdfd19d86, 0xb66b2148, 0x42916cd6, 0xe396856b);
    Next(s, m, 15, 0x5ed49596, 0xe396856b, 0xa1051895, 0xdda9b9a6, 15, 0x00000000, 0x49b40821,
      22, 0xbd2d3885, 0x65b5d63c, 0x8f196d75, 0x72aff2e0);
  }

  lemma Steps2(s: State, m: Chunk)
    requires s == INITIAL && m == LITTLE_BLOCK
    ensures Steps(s, m, 24) == Registers(0x59a8ffda, 0x47092c07, 0xabfc7920, 0x6d002f1e)
  {
    Block(m);
    hide X, Sine, Shift, Place, Steps;
    Sines2();
    Places2();
    Steps1(s, m);
    Next(s, m, 16, 0xdda9b9a6, 0x72aff2e0, 0xe396856b, 0xa1051895, 1, 0x00000000, 0xf61e2562,
      5, 0x629795ea, 0x365f74f2, 0xcbee9e46, 0x3e9e9126);
    Next(s, m, 17, 0xa1051895, 0x3e9e9126, 0x72aff2e0, 0xe396856b, 6, 0x00000000, 0xc040b340,
      9, 0x32bff3a2, 0x9405bf77, 0x0b7eef28, 0x4a1d804e);
    Next(s, m, 18, 0xe396856b, 0x4a1d804e, 0x3e9e9126, 0x72aff2e0, 11, 0x00000000, 0x265e5a51,
      14, 0x4e1d8146, 0x58126102, 0x98409604, 0xe25e1652);
    Next(s, m, 19, 0x72aff2e0, 0xe25e1652, 0x4a1d804e, 0x3e9e9126, 0, 0x80636261, 0xe9b6c7aa,
      20, 0x621f104a, 0x3ee92d35, 0xd353ee92, 0xb5b204e4);
    Next(s, m, 20, 0x3e9e9126, 0xb5b204e4, 0xe25e1652, 0x4a1d804e, 5, 0x00000000, 0xd62f105d,
      5, 0xa0521654, 0xb51fb7d7, 0xa3f6faf6, 0x59a8ffda);
    Next(s, m, 21, 0x4a1d804e, 0x59a8ffda, 0xb5b204e4, 0xe25e1652, 10, 0x00000000, 0x02441453,
      9, 0x55a816f6, 0xa209ab97, 0x13572f44, 0x6d002f1e);
    Next(s, m, 22, 0xe25e1652, 0x6d002f1e, 0x59a8ffda, 0xb5b204e4, 15, 0x00000000, 0xd8a1e681,
      14, 0x6d08ff1e, 0x2808fbf1, 0x3efc4a02, 0xabfc7920);
    Next(s, m, 23, 0xb5b204e4, 0xabfc7920, 0x6d002f1e, 0x59a8ffda, 4, 0x00000000, 0xe7d3fbc8,
      20, 0x2da87904, 0xcb2e79b0, 0x9b0cb2e7, 0x47092c07);
  }

  lemma Steps3(s: State, m: Chunk)
    requires s == INITIAL && m == LITTLE_BLOCK
    ensures Steps(s, m, 32) == Registers(0x790a77fb, 0x726342d3, 0xa62884aa, 0x9f47e4f8)
  {
    Block(m);
    hide X, Sine, Shift, Place, Steps;
    Sines3();
    Places3();
    Steps2(s, m);
    Next(s, m, 24, 0x59a8ffda, 0x47092c07, 0xabfc7920, 0x6d002f1e, 9, 0x00000000, 0x21e1cde6,
      5, 0xc7fc7c26, 0x438749e6, 0x70e93cc8, 0xb7f268cf);
    Next(s, m, 25, 0x6d002f1e, 0xb7f268cf, 0x47092c07, 0xabfc7920, 14, 0x00000018, 0xc33707d6,
      9, 0xe7f16c07, 0x1828a313, 0x51462630, 0x09388eff);
    Next(s, m, 26, 0xabfc7920, 0x09388eff, 0xb7f268cf, 0x47092c07, 3, 0x00000000, 0xf4d50d87,
      14, 0xb1fa4ccf, 0x52cbd376, 0xf4dd94b2, 0xfe1623b1);
    Next(s, m, 27, 0x47092c07, 0xfe1623b1, 0x09388eff, 0xb7f268cf, 8, 0x00000000, 0x455a14ed,
      20, 0xbe1aa6b1, 0x4a7de7a5, 0x7a54a7de, 0x786acb8f);
    Next(s, m, 28, 0xb7f268cf, 0x786acb8f, 0xfe1623b1, 0x09388eff, 13, 0x00000000, 0xa9e3e905,
      5, 0xfe2eab8f, 0x6004fd63, 0x009fac6c, 0x790a77fb);
    Next(s, m, 29, 0x09388eff, 0x790a77fb, 0x786acb8f, 0xfe1623b1, 2, 0x00000000, 0xfcefa3f8,
      9, 0x786aebbf, 0x7e931eb6, 0x263d6cfd, 0x9f47e4f8);
    Next(s, m, 30, 0xfe1623b1, 0x9f47e4f8, 0x790a77fb, 0x786acb8f, 7, 0x00000000, 0x676f02d9,
      14, 0x1942f4f8, 0x7ec81b82, 0x06e09fb2, 0xa62884aa);
    Next(s, m, 31, 0x786acb8f, 0xa62884aa, 0x9f47e4f8, 0x790a77fb, 12, 0x00000000, 0x8d2a4c8a,
      20, 0xa64d84aa, 0xabe29cc3, 0xcc3abe29, 0x726342d3);
  }

  lemma Steps4(s: State, m: Chunk)
    requires s == INITIAL && m == LITTLE_BLOCK
    ensures Steps(s, m, 40) == Registers(0x21b117b9, 0x5a2f5ea5, 0x3575227e, 0x6e7429d5)
  {
    Block(m);
    hide X, Sine, Shift, Place, Steps;
    Sines4();
    Places4();
    Steps3(s, m);
    Next(s, m, 32, 0x790a77fb, 0x726342d3, 0xa62884aa, 0x9f47e4f8, 5, 0x00000000, 0xfffa3942,
      4, 0x4b0c2281, 0xc410d3be, 0x410d3bec, 0xb3707ebf);
    Next(s, m, 33, 0x9f47e4f8, 0xb3707ebf, 0x726342d3, 0xa62884aa, 8, 0x00000000, 0x8771f681,
      11, 0x673bb8c6, 0x8df5943f, 0xaca1fc6f, 0x60127b2e);
    Next(s, m, 34, 0xa62884aa, 0x60127b2e, 0xb3707ebf, 0x726342d3, 11, 0x00000000, 0x6d9d6122,
      16, 0xa1014742, 0xb4c72d0e, 0x2d0eb4c7, 0x8d212ff5);
    Next(s, m, 35, 0x726342d3, 0x8d212ff5, 0x60127b2e, 0xb3707ebf, 14, 0x00000018, 0xfde5380c,
      23, 0x5e432a64, 0xce8ba55b, 0xade745d2, 0x3b0875c7);
    Next(s, m, 36, 0xb3707ebf, 0x3b0875c7, 0x8d212ff5, 0x60127b2e, 1, 0x00000000, 0xa4beea44,
      4, 0xd63b211c, 0x2e6a8a1f, 0xe6a8a1f2, 0x21b117b9);
    Next(s, m, 37, 0x60127b2e, 0x21b117b9, 0x3b0875c7, 0x8d212ff5, 4, 0x00000000, 0x4bdecfa9,
      11, 0x97984d8b, 0x43899862, 0x4cc3121c, 0x6e7429d5);
    Next(s, m, 38, 0x8d212ff5, 0x6e7429d5, 0x21b117b9, 0x3b0875c7, 7, 0x00000000, 0xf6bb4b60,
      16, 0x74cd4bab, 0xf8a9c700, 0xc700f8a9, 0x3575227e);
    Next(s, m, 39, 0x3b0875c7, 0x3575227e, 0x6e7429d5, 0x21b117b9, 10, 0x00000000, 0xbebfbc70,
      23, 0x7ab01c12, 0x74784e49, 0x24ba3c27, 0x5a2f5ea5);
  }

  lemma Steps5(s: State, m: Chunk)
    requires s == INITIAL && m == LITTLE_BLOCK
    ensures Steps(s, m, 48) == Registers(0x7f2e507b, 0x7beb9700, 0x8fae6399, 0x99d9679d)
  {
    Block(m);
    hide X, Sine, Shift, Place, Steps;
    Sines5();
    Places5();
    Steps4(s, m);
    Next(s, m, 40, 0x21b117b9, 0x5a2f5ea5, 0x3575227e, 0x6e7429d5, 13, 0x00000000, 0x289b7ec6,
      4, 0x012e550e, 0x4b7aeb8d, 0xb7aeb8d4, 0x11de1779);
    Next(s, m, 41, 0x6e7429d5, 0x11de1779, 0x5a2f5ea5, 0x3575227e, 0, 0x80636261, 0xeaa127fa,
      11, 0x7e846ba2, 0x57fd1fd2, 0xe8fe92bf, 0xfadcaa38);
    Next(s, m, 42, 0x3575227e, 0xfadcaa38, 0x11de1779, 0x5a2f5ea5, 3, 0x00000000, 0xd4ef3085,
      16, 0xb12de3e4, 0xbb9236e7, 0x36e7bb92, 0x31c465ca);
    Next(s, m, 43, 0x5a2f5ea5, 0x31c465ca, 0xfadcaa38, 0x11de1779, 6, 0x00000000, 0x04881d05,
      23, 0xdac6d88b, 0x397e5435, 0x1a9cbf2a, 0x4c6124f4);
    Next(s, m, 44, 0x11de1779, 0x4c6124f4, 0x31c465ca, 0xfadcaa38, 9, 0x00000000, 0xd9d4d039,
      4, 0x8779eb06, 0x732cd2b8, 0x32cd2b87, 0x7f2e507b);
    Next(s, m, 45, 0xfadcaa38, 0x7f2e507b, 0x4c6124f4, 0x31c465ca, 12, 0x00000000, 0xe6db99e5,
      11, 0x028b1145, 0xe4435562, 0x1aab1722, 0x99d9679d);
    Next(s, m, 46, 0x31c465ca, 0x99d9679d, 0x7f2e507b, 0x4c6124f4, 15, 0x00000000, 0x1fa27cf8,
      16, 0xaa961312, 0xfbfcf5d4, 0xf5d4fbfc, 0x8fae6399);
    Next(s, m, 47, 0x4c6124f4, 0x8fae6399, 0x99d9679d, 0x7f2e507b, 2, 0x00000000, 0xc4ac5665,
      23, 0x6959547f, 0x7a66cfd8, 0xec3d3367, 0x7beb9700);
  }

  lemma Steps6(s: State, m: Chunk)
    requires s == INITIAL && m == LITTLE_BLOCK
    ensures Steps(s, m, 56) == Registers(0x06cc5e8a, 0x3bfa2c27, 0x7d632dd0, 0x5b0d97aa)
  {
    Block(m);
    hide X, Sine, Shift, Place, Steps;
    Sines6();
    Places6();
    Steps5(s, m);
    Next(s, m, 48, 0x7f2e507b, 0x7beb9700, 0x8fae6399, 0x99d9679d, 0, 0x80636261, 0xf4292244,
      6, 0xf041fcfb, 0xe3fcd21b, 0xff3486f8, 0x7b201df8);
    Next(s, m, 49, 0x99d9679d, 0x7b201df8, 0x7beb9700, 0x8fae6399, 7, 0x00000000, 0x432aff97,
      10, 0x009a0afe, 0xdd9e7232, 0x79c8cb76, 0xf4e8e96e);
    Next(s, m, 50, 0x8fae6399, 0xf4e8e96e, 0x7b201df8, 0x7beb9700, 14, 0x00000018, 0xab9423a7,
      15, 0x8fdcf407, 0xcb1f7b5f, 0xbdafe58f, 0xb298cefd);
    Next(s, m, 51, 0x7beb9700, 0xb298cefd, 0xf4e8e96e, 0x7b201df8, 5, 0x00000000, 0xfc93a039,
      21, 0x42370791, 0xbab63eca, 0xd95756c7, 0x8bf025c4);
    Next(s, m, 52, 0x7b201df8, 0x8bf025c4, 0xb298cefd, 0xf4e8e96e, 12, 0x00000000, 0x655b59c3,
      6, 0x396ff928, 0x19eb70e3, 0x7adc38c6, 0x06cc5e8a);
    Next(s, m, 53, 0xf4e8e96e, 0x06cc5e8a, 0x8bf025c4, 0xb298cefd, 3, 0x00000000, 0x8f0ccc92,
      10, 0xc41f5a4e, 0x4815104e, 0x54413920, 0x5b0d97aa);
    Next(s, m, 54, 0xb298cefd, 0x5b0d97aa, 0x06cc5e8a, 0x8bf025c4, 10, 0x00000000, 0xffeff47d,
      15, 0x79c38131, 0x2c4c44ab, 0x22559626, 0x7d632dd0);
    Next(s, m, 55, 0x8bf025c4, 0x7d632dd0, 0x5b0d97aa, 0x06cc5e8a, 1, 0x00000000, 0x85845dd1,
      21, 0xa67e3a5f, 0xb7f2bdf4, 0xbe96fe57, 0x3bfa2c27);
  }

  lemma Steps7(s: State, m: Chunk)
    requires s == INITIAL && m == LITTLE_BLOCK
    ensures Steps(s, m, 64) == Registers(0x310ade8f, 0xc08226b3, 0xe484b9d8, 0x624d8cb2)
  {
    Block(m);
    hide X, Sine, Shift, Place, Steps;
    Sines7();
    Places7();
    Steps6(s, m);
    Next(s, m, 56, 0x06cc5e8a, 0x3bfa2c27, 0x7d632dd0, 0x5b0d97aa, 8, 0x00000000, 0x6fa87e4f,
      6, 0xc29941a7, 0x390e1e80, 0x4387a00e, 0x7f81cc35);
    Next(s, m, 57, 0x5b0d97aa, 0x7f81cc35, 0x3bfa2c27, 0x7d632dd0, 15, 0x00000000, 0xfe2ce6e0,
      10, 0xc467f218, 0x1da270a2, 0x89c28876, 0x094454ab);
    Next(s, m, 58, 0x7d632dd0, 0x094454ab, 0x7f81cc35, 0x3bfa2c27, 6, 0x00000000, 0xa3014314,
      15, 0xb2c41bce, 0xd3288cb2, 0x46596994, 0x4f9dbe3f);
    Next(s, m, 59, 0x3bfa2c27, 0x4f9dbe3f, 0x094454ab, 0x7f81cc35, 13, 0x00000000, 0x4e0811a1,
      21, 0xc6bbeb54, 0x50be291c, 0x238a17c5, 0x7327d604);
    Next(s, m, 60, 0x7f81cc35, 0x7327d604, 0x4f9dbe3f, 0x094454ab, 4, 0x00000000, 0xf7537e82,
      6, 0xb822416b, 0x2ef78c22, 0xbde3088b, 0x310ade8f);
    Next(s, m, 61, 0x094454ab, 0x310ade8f, 0x7327d604, 0x4f9dbe3f, 11, 0x00000000, 0xbd3af235,
      10, 0xc24d09cb, 0x88cc50ab, 0x3142ae23, 0x624d8cb2);
    Next(s, m, 62, 0x4f9dbe3f, 0x624d8cb2, 0x310ade8f, 0x7327d604, 2, 0x00000000, 0x2ad7d2bb,
      15, 0xdfd77374, 0x5a4d046e, 0x82372d26, 0xe484b9d8);
    Next(s, m, 63, 0x7327d604, 0xe484b9d8, 0x624d8cb2, 0x310ade8f, 9, 0x00000000, 0xeb86d391,
      21, 0x8cb8354a, 0xeb66dedf, 0xdbfd6cdb, 0xc08226b3);
  }

  const HASH: seq<bv8> := [0x90, 0x01, 0x50, 0x98] + [0x3c, 0xd2, 0x4f, 0xb0] + [0xd6, 0x96, 0x3f, 0x7d]
    + [0x28, 0xe1, 0x7f, 0x72]

  lemma WordBytes()
    ensures LittleBytes(0x98500190) == [0x90, 0x01, 0x50, 0x98] && LittleBytes(0xb04fd23c) == [0x3c, 0xd2, 0x4f, 0xb0]
    ensures LittleBytes(0x7d3f96d6) == [0xd6, 0x96, 0x3f, 0x7d] && LittleBytes(0x727fe128) == [0x28, 0xe1, 0x7f, 0x72]
  {
  }

  lemma Totals(s: State)
    requires s == INITIAL
    ensures Sum(s, Registers(0x310ade8f, 0xc08226b3, 0xe484b9d8, 0x624d8cb2))
         == [0x98500190, 0xb04fd23c, 0x7d3f96d6, 0x727fe128]
  {
    Initials();
  }

  lemma DigestBytes(xs: seq<bv32>)
    requires xs == [0x98500190, 0xb04fd23c, 0x7d3f96d6, 0x727fe128]
    ensures LittleAll(xs) == HASH
  {
    WordBytes();
    hide LittleBytes, LittleAll;
    LittleNext(xs, 0);
    LittleNext(xs, 1);
    LittleNext(xs, 2);
    LittleNext(xs, 3);
    assert xs[..4] == xs;
  }

  lemma OneBlock(s: State, b: Chunk)
    ensures Fold<State>(Compress, s, b) == Compress(s, b)
  {
    hide Compress;
    assert b + [] == b;
    FoldBlock<State>(Compress, s, b, []);
    FoldShort<State>(Compress, Compress(s, b), []);
  }

  lemma Example()
    ensures Digest(ABC) == HASH
  {
    Padded();
    Steps7(INITIAL, LITTLE_BLOCK);
    Totals(INITIAL);
    hide Steps, Sum, Padding, LittleLength, BitLength, LittleAll;
    CompressIs(INITIAL, LITTLE_BLOCK);
    OneBlock(INITIAL, LITTLE_BLOCK);
    DigestBytes(Compress(INITIAL, LITTLE_BLOCK));
  }
}
