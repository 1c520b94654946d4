/** What FIPS 180-4 says of the constants of SHA-256, and its example. */
module Sha256Example {
  import opened Words
  import opened BlockStream
  import opened AbcMessage
  import opened Primes
  import opened Sha256

  // ----- the constants, sections 4.2.2 and 5.3.3 -----

  /** k is the first 32 bits of the fraction of the cube root of p, and c is its whole part. */
  predicate CubeRoot(p: nat, c: nat, k: bv32) {
    var r := 0x1_0000_0000 * c + k as nat;
    r * r * r <= p * 0x1_0000_0000 * 0x1_0000_0000 * 0x1_0000_0000 < (r + 1) * (r + 1) * (r + 1)
  }

  /** The same of the square root. */
  predicate SquareRoot(p: nat, c: nat, k: bv32) {
    var r := 0x1_0000_0000 * c + k as nat;
    r * r <= p * 0x1_0000_0000 * 0x1_0000_0000 < (r + 1) * (r + 1)
  }

  lemma Constants0()
    ensures K(0) == 0x428a2f98 && K(1) == 0x71374491 && K(2) == 0xb5c0fbcf && K(3) == 0xe9b5dba5
  {
  }

  lemma Constants1()
    ensures K(4) == 0x3956c25b && K(5) == 0x59f111f1 && K(6) == 0x923f82a4 && K(7) == 0xab1c5ed5
  {
  }

  lemma Constants2()
    ensures K(8) == 0xd807aa98 && K(9) == 0x12835b01 && K(10) == 0x243185be && K(11) == 0x550c7dc3
  {
  }

  lemma Constants3()
    ensures K(12) == 0x72be5d74 && K(13) == 0x80deb1fe && K(14) == 0x9bdc06a7 && K(15) == 0xc19bf174
  {
  }

  lemma Constants4()
    ensures K(16) == 0xe49b69c1 && K(17) == 0xefbe4786 && K(18) == 0x0fc19dc6 && K(19) == 0x240ca1cc
  {
  }

  lemma Constants5()
    ensures K(20) == 0x2de92c6f && K(21) == 0x4a7484aa && K(22) == 0x5cb0a9dc && K(23) == 0x76f988da
  {
  }

  lemma Constants6()
    ensures K(24) == 0x983e5152 && K(25) == 0xa831c66d && K(26) == 0xb00327c8 && K(27) == 0xbf597fc7
  {
  }

  lemma Constants7()
    ensures K(28) == 0xc6e00bf3 && K(29) == 0xd5a79147 && K(30) == 0x06ca6351 && K(31) == 0x14292967
  {
  }

  lemma Constants8()
    ensures K(32) == 0x27b70a85 && K(33) == 0x2e1b2138 && K(34) == 0x4d2c6dfc && K(35) == 0x53380d13
  {
  }

  lemma Constants9()
    ensures K(36) == 0x650a7354 && K(37) == 0x766a0abb && K(38) == 0x81c2c92e && K(39) == 0x92722c85
  {
  }

  lemma Constants10()
    ensures K(40) == 0xa2bfe8a1 && K(41) == 0xa81a664b && K(42) == 0xc24b8b70 && K(43) == 0xc76c51a3
  {
  }

  lemma Constants11()
    ensures K(44) == 0xd192e819 && K(45) == 0xd6990624 && K(46) == 0xf40e3585 && K(47) == 0x106aa070
  {
  }

  lemma Constants12()
    ensures K(48) == 0x19a4c116 && K(49) == 0x1e376c08 && K(50) == 0x2748774c && K(51) == 0x34b0bcb5
  {
  }

  lemma Constants13()
    ensures K(52) == 0x391c0cb3 && K(53) == 0x4ed8aa4a && K(54) == 0x5b9cca4f && K(55) == 0x682e6ff3
  {
  }

  lemma Constants14()
    ensures K(56) == 0x748f82ee && K(57) == 0x78a5636f && K(58) == 0x84c87814 && K(59) == 0x8cc70208
  {
  }

  lemma Constants15()
    ensures K(60) == 0x90befffa && K(61) == 0xa4506ceb && K(62) == 0xbef9a3f7 && K(63) == 0xc67178f2
  {
  }

  lemma Initials()
    ensures INITIAL[0] == 0x6a09e667 && INITIAL[1] == 0xbb67ae85 && INITIAL[2] == 0x3c6ef372 && INITIAL[3] == 0xa54ff53a
    ensures INITIAL[4] == 0x510e527f && INITIAL[5] == 0x9b05688c && INITIAL[6] == 0x1f83d9ab && INITIAL[7] == 0x5be0cd19
  {
  }

  lemma CubeRoots0()
    ensures CubeRoot(2, 1, 0x428a2f98) && CubeRoot(3, 1, 0x71374491)
    ensures CubeRoot(5, 1, 0xb5c0fbcf) && CubeRoot(7, 1, 0xe9b5dba5)
  {
  }

  lemma CubeRoots1()
    ensures CubeRoot(11, 2, 0x3956c25b) && CubeRoot(13, 2, 0x59f111f1)
    ensures CubeRoot(17, 2, 0x923f82a4) && CubeRoot(19, 2, 0xab1c5ed5)
  {
  }

  lemma CubeRoots2()
    ensures CubeRoot(23, 2, 0xd807aa98) && CubeRoot(29, 3, 0x12835b01)
    ensures CubeRoot(31, 3, 0x243185be) && CubeRoot(37, 3, 0x550c7dc3)
  {
  }

  lemma CubeRoots3()
    ensures CubeRoot(41, 3, 0x72be5d74) && CubeRoot(43, 3, 0x80deb1fe)
    ensures CubeRoot(47, 3, 0x9bdc06a7) && CubeRoot(53, 3, 0xc19bf174)
  {
  }

  lemma CubeRoots4()
    ensures CubeRoot(59, 3, 0xe49b69c1) && CubeRoot(61, 3, 0xefbe4786)
    ensures CubeRoot(67, 4, 0x0fc19dc6) && CubeRoot(71, 4, 0x240ca1cc)
  {
  }

  lemma CubeRoots5()
    ensures CubeRoot(73, 4, 0x2de92c6f) && CubeRoot(79, 4, 0x4a7484aa)
    ensures CubeRoot(83, 4, 0x5cb0a9dc) && CubeRoot(89, 4, 0x76f988da)
  {
  }

  lemma CubeRoots6()
    ensures CubeRoot(97, 4, 0x983e5152) && CubeRoot(101, 4, 0xa831c66d)
    ensures CubeRoot(103, 4, 0xb00327c8) && CubeRoot(107, 4, 0xbf597fc7)
  {
  }

  lemma CubeRoots7()
    ensures CubeRoot(109, 4, 0xc6e00bf3) && CubeRoot(113, 4, 0xd5a79147)
    ensures CubeRoot(127, 5, 0x06ca6351) && CubeRoot(131, 5, 0x14292967)
  {
  }

  lemma CubeRoots8()
    ensures CubeRoot(137, 5, 0x27b70a85) && CubeRoot(139, 5, 0x2e1b2138)
    ensures CubeRoot(149, 5, 0x4d2c6dfc) && CubeRoot(151, 5, 0x53380d13)
  {
  }

  lemma CubeRoots9()
    ensures CubeRoot(157, 5, 0x650a7354) && CubeRoot(163, 5, 0x766a0abb)
    ensures CubeRoot(167, 5, 0x81c2c92e) && CubeRoot(173, 5, 0x92722c85)
  {
  }

  lemma CubeRoots10()
    ensures CubeRoot(179, 5, 0xa2bfe8a1) && CubeRoot(181, 5, 0xa81a664b)
    ensures CubeRoot(191, 5, 0xc24b8b70) && CubeRoot(193, 5, 0xc76c51a3)
  {
  }

  lemma CubeRoots11()
    ensures CubeRoot(197, 5, 0xd192e819) && CubeRoot(199, 5, 0xd6990624)
    ensures CubeRoot(211, 5, 0xf40e3585) && CubeRoot(223, 6, 0x106aa070)
  {
  }

  lemma CubeRoots12()
    ensures CubeRoot(227, 6, 0x19a4c116) && CubeRoot(229, 6, 0x1e376c08)
    ensures CubeRoot(233, 6, 0x2748774c) && CubeRoot(239, 6, 0x34b0bcb5)
  {
  }

  lemma CubeRoots13()
    ensures CubeRoot(241, 6, 0x391c0cb3) && CubeRoot(251, 6, 0x4ed8aa4a)
    ensures CubeRoot(257, 6, 0x5b9cca4f) && CubeRoot(263, 6, 0x682e6ff3)
  {
  }

  lemma CubeRoots14()
    ensures CubeRoot(269, 6, 0x748f82ee) && CubeRoot(271, 6, 0x78a5636f)
    ensures CubeRoot(277, 6, 0x84c87814) && CubeRoot(281, 6, 0x8cc70208)
  {
  }

  lemma CubeRoots15()
    ensures CubeRoot(283, 6, 0x90befffa) && CubeRoot(293, 6, 0xa4506ceb)
    ensures CubeRoot(307, 6, 0xbef9a3f7) && CubeRoot(311, 6, 0xc67178f2)
  {
  }

  lemma SquareRoots()
    ensures SquareRoot(2, 1, 0x6a09e667) && SquareRoot(3, 1, 0xbb67ae85) && SquareRoot(5, 2, 0x3c6ef372)
    ensures SquareRoot(7, 2, 0xa54ff53a) && SquareRoot(11, 3, 0x510e527f) && SquareRoot(13, 3, 0x9b05688c)
    ensures SquareRoot(17, 4, 0x1f83d9ab) && SquareRoot(19, 4, 0x5be0cd19)
  {
  }

  /** The t-th prime, and the whole part of its cube root. */
  ghost predicate Root(t: nat, p: nat, c: nat)
    requires t < 64
  {
    Prime(p) && PrimesBelow(p) == t && CubeRoot(p, c, K(t))
  }

  lemma Root0(t: nat) returns (p: nat, c: nat)
    requires 0 <= t < 8
    ensures Root(t, p, c)
  {
    Constants0();
    Constants1();
    CubeRoots0();
    CubeRoots1();
    AllPrimes();
    hide CubeRoot, K, Prime, PrimesBelow;
    match t
    case 0 => p, c := 2, 1;
    case 1 => p, c := 3, 1;
    case 2 => p, c := 5, 1;
    case 3 => p, c := 7, 1;
    case 4 => p, c := 11, 2;
    case 5 => p, c := 13, 2;
    case 6 => p, c := 17, 2;
    case _ => p, c := 19, 2;
  }

  lemma Root1(t: nat) returns (p: nat, c: nat)
    requires 8 <= t < 16
    ensures Root(t, p, c)
  {
    Constants2();
    Constants3();
    CubeRoots2();
    CubeRoots3();
    AllPrimes();
    hide CubeRoot, K, Prime, PrimesBelow;
    match t
    case 8 => p, c := 23, 2;
    case 9 => p, c := 29, 3;
    case 10 => p, c := 31, 3;
    case 11 => p, c := 37, 3;
    case 12 => p, c := 41, 3;
    case 13 => p, c := 43, 3;
    case 14 => p, c := 47, 3;
    case _ => p, c := 53, 3;
  }

  lemma Root2(t: nat) returns (p: nat, c: nat)
    requires 16 <= t < 24
    ensures Root(t, p, c)
  {
    Constants4();
    Constants5();
    CubeRoots4();
    CubeRoots5();
    AllPrimes();
    hide CubeRoot, K, Prime, PrimesBelow;
    match t
    case 16 => p, c := 59, 3;
    case 17 => p, c := 61, 3;
    case 18 => p, c := 67, 4;
    case 19 => p, c := 71, 4;
    case 20 => p, c := 73, 4;
    case 21 => p, c := 79, 4;
    case 22 => p, c := 83, 4;
    case _ => p, c := 89, 4;
  }

  lemma Root3(t: nat) returns (p: nat, c: nat)
    requires 24 <= t < 32
    ensures Root(t, p, c)
  {
    Constants6();
    Constants7();
    CubeRoots6();
    CubeRoots7();
    AllPrimes();
    hide CubeRoot, K, Prime, PrimesBelow;
    match t
    case 24 => p, c := 97, 4;
    case 25 => p, c := 101, 4;
    case 26 => p, c := 103, 4;
    case 27 => p, c := 107, 4;
    case 28 => p, c := 109, 4;
    case 29 => p, c := 113, 4;
    case 30 => p, c := 127, 5;
    case _ => p, c := 131, 5;
  }

  lemma Root4(t: nat) returns (p: nat, c: nat)
    requires 32 <= t < 40
    ensures Root(t, p, c)
  {
    Constants8();
    Constants9();
    CubeRoots8();
    CubeRoots9();
    AllPrimes();
    hide CubeRoot, K, Prime, PrimesBelow;
    match t
    case 32 => p, c := 137, 5;
    case 33 => p, c := 139, 5;
    case 34 => p, c := 149, 5;
    case 35 => p, c := 151, 5;
    case 36 => p, c := 157, 5;
    case 37 => p, c := 163, 5;
    case 38 => p, c := 167, 5;
    case _ => p, c := 173, 5;
  }

  lemma Root5(t: nat) returns (p: nat, c: nat)
    requires 40 <= t < 48
    ensures Root(t, p, c)
  {
    Constants10();
    Constants11();
    CubeRoots10();
    CubeRoots11();
    AllPrimes();
    hide CubeRoot, K, Prime, PrimesBelow;
    match t
    case 40 => p, c := 179, 5;
    case 41 => p, c := 181, 5;
    case 42 => p, c := 191, 5;
    case 43 => p, c := 193, 5;
    case 44 => p, c := 197, 5;
    case 45 => p, c := 199, 5;
    case 46 => p, c := 211, 5;
    case _ => p, c := 223, 6;
  }

  lemma Root6(t: nat) returns (p: nat, c: nat)
    requires 48 <= t < 56
    ensures Root(t, p, c)
  {
    Constants12();
    Constants13();
    CubeRoots12();
    CubeRoots13();
    AllPrimes();
    hide CubeRoot, K, Prime, PrimesBelow;
    match t
    case 48 => p, c := 227, 6;
    case 49 => p, c := 229, 6;
    case 50 => p, c := 233, 6;
    case 51 => p, c := 239, 6;
    case 52 => p, c := 241, 6;
    case 53 => p, c := 251, 6;
    case 54 => p, c := 257, 6;
    case _ => p, c := 263, 6;
  }

  lemma Root7(t: nat) returns (p: nat, c: nat)
    requires 56 <= t < 64
    ensures Root(t, p, c)
  {
    Constants14();
    Constants15();
    CubeRoots14();
    CubeRoots15();
    AllPrimes();
    hide CubeRoot, K, Prime, PrimesBelow;
    match t
    case 56 => p, c := 269, 6;
    case 57 => p, c := 271, 6;
    case 58 => p, c := 277, 6;
    case 59 => p, c := 281, 6;
    case 60 => p, c := 283, 6;
    case 61 => p, c := 293, 6;
    case 62 => p, c := 307, 6;
    case _ => p, c := 311, 6;
  }

  /** Each constant is the first 32 bits of the fraction of the cube root of its prime. */
  lemma ConstantIs(t: nat) returns (p: nat, c: nat)
    requires t < 64
    ensures Prime(p) && PrimesBelow(p) == t && CubeRoot(p, c, K(t))
  {
    hide CubeRoot, K, Prime, PrimesBelow;
    if t < 8 {
      p, c := Root0(t);
    } else if t < 16 {
      p, c := Root1(t);
    } else if t < 24 {
      p, c := Root2(t);
    } else if t < 32 {
      p, c := Root3(t);
    } else if t < 40 {
      p, c := Root4(t);
    } else if t < 48 {
      p, c := Root5(t);
    } else if t < 56 {
      p, c := Root6(t);
    } else {
      p, c := Root7(t);
    }
  }

  /** Each word of the initial state is the first 32 bits of the fraction of the square root of its prime. */
  lemma InitialIs(t: nat) returns (p: nat, c: nat)
    requires t < 8
    ensures Prime(p) && PrimesBelow(p) == t && SquareRoot(p, c, INITIAL[t])
  {
    Initials();
    SquareRoots();
    AllPrimes();
    hide SquareRoot, Prime, PrimesBelow;
    match t
    case 0 => p, c := 2, 1;
    case 1 => p, c := 3, 1;
    case 2 => p, c := 5, 2;
    case 3 => p, c := 7, 2;
    case 4 => p, c := 11, 3;
    case 5 => p, c := 13, 3;
    case 6 => p, c := 17, 4;
    case _ => p, c := 19, 4;
  }

  // ----- the example: "abc" -----

  predicate WordOk(p: bv32, q: bv32, r: bv32, s: bv32, a: bv32, b: bv32, w: bv32) {
    Sigma1(p) == a && Sigma0(r) == b && Four(a, q, b, s) == w
  }

  /** A word of the schedule, from those 2, 7, 15 and 16 before it. */
  lemma Word(m: Chunk, t: nat, p: bv32, q: bv32, r: bv32, s: bv32, a: bv32, b: bv32, w: bv32)
    requires 16 <= t < 64 && W(m, t - 2) == p && W(m, t - 7) == q && W(m, t - 15) == r && W(m, t - 16) == s
    requires WordOk(p, q, r, s, a, b, w)
    ensures W(m, t) == w
  {
    hide W, Four, Sigma0, Sigma1;
    WLater(m, t);
  }

  /** What the functions give, p, q, r and v; the sum u; and the new registers x and y. */
  predicate StepOk(a: bv32, b: bv32, c: bv32, d: bv32, e: bv32, f: bv32, g: bv32, h: bv32, k: bv32, w: bv32, p: bv32,
                   q: bv32, r: bv32, v: bv32, u: bv32, x: bv32, y: bv32)
  {
    && BigSigma1(e) == p && Ch(e, f, g) == q && BigSigma0(a) == r && Maj(a, b, c) == v
    && Five(h, p, q, k, w) == u && Plus(u, Plus(r, v)) == x && Plus(d, u) == y
  }

  /** A round gives x and y to two of the registers, and moves the others on. */
  lemma Step(s: State, m: Chunk, t: nat, a: bv32, b: bv32, c: bv32, d: bv32, e: bv32, f: bv32, g: bv32, h: bv32,
             k: bv32, w: bv32, p: bv32, q: bv32, r: bv32, v: bv32, u: bv32, x: bv32, y: bv32)
    requires t < 64 && Rounds(s, m, t) == Registers(a, b, c, d, e, f, g, h) && W(m, t) == w && K(t) == k
    requires StepOk(a, b, c, d, e, f, g, h, k, w, p, q, r, v, u, x, y)
    ensures Rounds(s, m, t + 1) == Registers(x, a, b, c, y, e, f, g)
  {
    hide W, K, Rounds, Plus, Five, BigSigma0, BigSigma1, Ch, Maj;
    RoundsNext(s, m, t);
  }

  lemma Words0(m: Chunk)
    requires m == BIG_BLOCK
    ensures W(m, 0) == 0x61626380 && W(m, 1) == 0 && W(m, 2) == 0 && W(m, 3) == 0
    ensures W(m, 4) == 0 && W(m, 5) == 0 && W(m, 6) == 0 && W(m, 7) == 0
    ensures W(m, 8) == 0 && W(m, 9) == 0 && W(m, 10) == 0 && W(m, 11) == 0
    ensures W(m, 12) == 0 && W(m, 13) == 0 && W(m, 14) == 0 && W(m, 15) == 24
  {
  }

  lemma Words1(m: Chunk)
    requires m == BIG_BLOCK
    ensures W(m, 16) == 0x61626380 && W(m, 17) == 0x000f0000 && W(m, 18) == 0x7da86405 && W(m, 19) == 0x600003c6
    ensures W(m, 20) == 0x3e9d7b78 && W(m, 21) == 0x0183fc00 && W(m, 22) == 0x12dcbfdb && W(m, 23) == 0xe2e2c38e
    ensures W(m, 24) == 0xc8215c1a && W(m, 25) == 0xb73679a2 && W(m, 26) == 0xe5bc3909 && W(m, 27) == 0x32663c5b
    ensures W(m, 28) == 0x9d209d67 && W(m, 29) == 0xec8726cb && W(m, 30) == 0x702138a4 && W(m, 31) == 0xd3b7973b
  {
    hide W;
    Words0(m);
    Word(m, 16, 0x00000000, 0x00000000, 0x00000000, 0x61626380, 0x00000000, 0x00000000, 0x61626380);
    Word(m, 17, 0x00000018, 0x00000000, 0x00000000, 0x00000000, 0x000f0000, 0x00000000, 0x000f0000);
    Word(m, 18, 0x61626380, 0x00000000, 0x00000000, 0x00000000, 0x7da86405, 0x00000000, 0x7da86405);
    Word(m, 19, 0x000f0000, 0x00000000, 0x00000000, 0x00000000, 0x600003c6, 0x00000000, 0x600003c6);
    Word(m, 20, 0x7da86405, 0x00000000, 0x00000000, 0x00000000, 0x3e9d7b78, 0x00000000, 0x3e9d7b78);
    Word(m, 21, 0x600003c6, 0x00000000, 0x00000000, 0x00000000, 0x0183fc00, 0x00000000, 0x0183fc00);
    Word(m, 22, 0x3e9d7b78, 0x00000018, 0x00000000, 0x00000000, 0x12dcbfc3, 0x00000000, 0x12dcbfdb);
    Word(m, 23, 0x0183fc00, 0x61626380, 0x00000000, 0x00000000, 0x8180600e, 0x00000000, 0xe2e2c38e);
    Word(m, 24, 0x12dcbfdb, 0x000f0000, 0x00000000, 0x00000000, 0xc8125c1a, 0x00000000, 0xc8215c1a);
    Word(m, 25, 0xe2e2c38e, 0x7da86405, 0x00000000, 0x00000000, 0x398e159d, 0x00000000, 0xb73679a2);
    Word(m, 26, 0xc8215c1a, 0x600003c6, 0x00000000, 0x00000000, 0x85bc3543, 0x00000000, 0xe5bc3909);
    Word(m, 27, 0xb73679a2, 0x3e9d7b78, 0x00000000, 0x00000000, 0xf3c8c0e3, 0x00000000, 0x32663c5b);
    Word(m, 28, 0xe5bc3909, 0x0183fc00, 0x00000000, 0x00000000, 0x9b9ca167, 0x00000000, 0x9d209d67);
    Word(m, 29, 0x32663c5b, 0x12dcbfdb, 0x00000000, 0x00000000, 0xd9aa66f0, 0x00000000, 0xec8726cb);
    Word(m, 30, 0x9d209d67, 0xe2e2c38e, 0x00000018, 0x00000000, 0x5d387513, 0x30060003, 0x702138a4);
    Word(m, 31, 0xec8726cb, 0xc8215c1a, 0x61626380, 0x00000018, 0x7787aa1a, 0x940e90ef, 0xd3b7973b);
  }

  lemma Words2(m: Chunk)
    requires m == BIG_BLOCK
    ensures W(m, 32) == 0x93f5997f && W(m, 33) == 0x3b68ba73 && W(m, 34) == 0xaff4ffc1 && W(m, 35) == 0xf10a5c62
    ensures W(m, 36) == 0x0a8b3996 && W(m, 37) == 0x72af830a && W(m, 38) == 0x9409e33e && W(m, 39) == 0x24641522
    ensures W(m, 40) == 0x9f47bf94 && W(m, 41) == 0xf0a64f5a && W(m, 42) == 0x3e246a79 && W(m, 43) == 0x27333ba3
    ensures W(m, 44) == 0x0c4763f2 && W(m, 45) == 0x840abf27 && W(m, 46) == 0x7a290d5d && W(m, 47) == 0x065c43da
  {
    hide W;
    Words1(m);
    Word(m, 32, 0x702138a4, 0xb73679a2, 0x000f0000, 0x61626380, 0xbb5abe5a, 0xc001fe03, 0x93f5997f);
    Word(m, 33, 0xd3b7973b, 0xe5bc3909, 0x7da86405, 0x000f0000, 0x394e7e48, 0x1c4f0322, 0x3b68ba73);
    Word(m, 34, 0x93f5997f, 0x32663c5b, 0x600003c6, 0x7da86405, 0x7fb4c6e2, 0x8031987f, 0xaff4ffc1);
    Word(m, 35, 0x3b68ba73, 0x9d209d67, 0x3e9d7b78, 0x600003c6, 0x4a7920f7, 0xa9709a3e, 0xf10a5c62);
    Word(m, 36, 0xaff4ffc1, 0xec8726cb, 0x0183fc00, 0x3e9d7b78, 0xe0331f3b, 0xff337818, 0x0a8b3996);
    Word(m, 37, 0xf10a5c62, 0x702138a4, 0x12dcbfdb, 0x0183fc00, 0x65816433, 0x9b88ea33, 0x72af830a);
    Word(m, 38, 0x0a8b3996, 0xd3b7973b, 0xe2e2c38e, 0x12dcbfdb, 0xfbfb66da, 0xb17a254e, 0x9409e33e);
    Word(m, 39, 0x72af830a, 0x93f5997f, 0xc8215c1a, 0xe2e2c38e, 0x31f8dce2, 0x7b92db33, 0x24641522);
    Word(m, 40, 0x9409e33e, 0x3b68ba73, 0xb73679a2, 0xc8215c1a, 0xcddd9afd, 0xcde00e0a, 0x9f47bf94);
    Word(m, 41, 0x24641522, 0xaff4ffc1, 0xe5bc3909, 0xb73679a2, 0x883c4fbb, 0x013e863c, 0xf0a64f5a);
    Word(m, 42, 0x9f47bf94, 0xf10a5c62, 0x32663c5b, 0xe5bc3909, 0x281f0da4, 0x3f3ec76a, 0x3e246a79);
    Word(m, 43, 0xf0a64f5a, 0x0a8b3996, 0x9d209d67, 0x32663c5b, 0xee7a0fd4, 0xfbc7b5de, 0x27333ba3);
    Word(m, 44, 0x3e246a79, 0x72af830a, 0xec8726cb, 0x9d209d67, 0xb87c31cc, 0x43fb11b5, 0x0c4763f2);
    Word(m, 45, 0x27333ba3, 0x9409e33e, 0x702138a4, 0xec8726cb, 0xfaac3bb1, 0x08cd796d, 0x840abf27);
    Word(m, 46, 0x0c4763f2, 0x24641522, 0xd3b7973b, 0x702138a4, 0x5d845673, 0x881f6924, 0x7a290d5d);
    Word(m, 47, 0x840abf27, 0x9f47bf94, 0x93f5997f, 0xd3b7973b, 0x0856302b, 0x8b06bce0, 0x065c43da);
  }

  lemma Words3(m: Chunk)
    requires m == BIG_BLOCK
    ensures W(m, 48) == 0xfb3e89cb && W(m, 49) == 0xcc7617db && W(m, 50) == 0xb9e66c34 && W(m, 51) == 0xa9993667
    ensures W(m, 52) == 0x84badedd && W(m, 53) == 0xc21462bc && W(m, 54) == 0x1487472c && W(m, 55) == 0xb20f7a99
    ensures W(m, 56) == 0xef57b9cd && W(m, 57) == 0xebe6b238 && W(m, 58) == 0x9fe3095e && W(m, 59) == 0x78bc8d4b
    ensures W(m, 60) == 0xa43fcf15 && W(m, 61) == 0x668b2ff8 && W(m, 62) == 0xeeaba2cc && W(m, 63) == 0x12b1edeb
  {
    hide W;
    Words2(m);
    Word(m, 48, 0x7a290d5d, 0xf0a64f5a, 0x3b68ba73, 0x93f5997f, 0xa71b9812, 0xcf8708e0, 0xfb3e89cb);
    Word(m, 49, 0x065c43da, 0x3e246a79, 0xaff4ffc1, 0x3b68ba73, 0xa997d4f5, 0xa9511dfa, 0xcc7617db);
    Word(m, 50, 0xfb3e89cb, 0x27333ba3, 0xf10a5c62, 0xaff4ffc1, 0x95e24d5a, 0x4cdbe376, 0xb9e66c34);
    Word(m, 51, 0xcc7617db, 0x0c4763f2, 0x0a8b3996, 0xf10a5c62, 0xc9258230, 0xe321f3e3, 0xa9993667);
    Word(m, 52, 0xb9e66c34, 0x840abf27, 0x72af830a, 0x0a8b3996, 0xfbb2b254, 0xfa7233cc, 0x84badedd);
    Word(m, 53, 0xa9993667, 0x7a290d5d, 0x9409e33e, 0x72af830a, 0xbdd547b2, 0x17668aa3, 0xc21462bc);
    Word(m, 54, 0x84badedd, 0x065c43da, 0x24641522, 0x9409e33e, 0x34945c7d, 0x458cc397, 0x1487472c);
    Word(m, 55, 0xc21462bc, 0xfb3e89cb, 0x9f47bf94, 0x24641522, 0xbd397c50, 0xd5335f5c, 0xb20f7a99);
    Word(m, 56, 0x1487472c, 0xcc7617db, 0xf0a64f5a, 0x9f47bf94, 0x4b76a902, 0x3823395c, 0xef57b9cd);
    Word(m, 57, 0xb20f7a99, 0xb9e66c34, 0x3e246a79, 0xf0a64f5a, 0x52336c98, 0xef268a12, 0xebe6b238);
    Word(m, 58, 0xef57b9cd, 0xa9993667, 0x27333ba3, 0x3e246a79, 0x2be49faf, 0x8c40c8cf, 0x9fe3095e);
    Word(m, 59, 0xebe6b238, 0x84badedd, 0x0c4763f2, 0x27333ba3, 0x8f619123, 0x3d6ce1a8, 0x78bc8d4b);
    Word(m, 60, 0x9fe3095e, 0xc21462bc, 0x840abf27, 0x0c4763f2, 0xe5a364cf, 0xf040a398, 0xa43fcf15);
    Word(m, 61, 0x78bc8d4b, 0x1487472c, 0x7a290d5d, 0x840abf27, 0xd712fc6a, 0xf6e62d3b, 0x668b2ff8);
    Word(m, 62, 0xa43fcf15, 0xb20f7a99, 0x065c43da, 0x7a290d5d, 0x1e41696b, 0xa431b16b, 0xeeaba2cc);
    Word(m, 63, 0x668b2ff8, 0xef57b9cd, 0xfb3e89cb, 0x065c43da, 0xf21a9d5f, 0x2ae352e5, 0x12b1edeb);
  }

  lemma Start(s: State, m: Chunk)
    requires s == INITIAL
    ensures Rounds(s, m, 0)
         == Registers(0x6a09e667, 0xbb67ae85, 0x3c6ef372, 0xa54ff53a, 0x510e527f, 0x9b05688c, 0x1f83d9ab, 0x5be0cd19)
  {
    Initials();
    NoRounds(s, m);
    hide Rounds;
  }

  lemma Rounds0(s: State, m: Chunk)
    requires s == INITIAL && m == BIG_BLOCK
    ensures Rounds(s, m, 8)
         == Registers(0x85a07b5f, 0xe5030380, 0x2b4209f5, 0x04409a6a, 0x0c657a79, 0x9b27a401, 0x714260ad, 0x43ada245)
  {
    hide W, K, Rounds;
    Constants0();
    Constants1();
    Words0(m);
    Start(s, m);
    Step(s, m, 0, 0x6a09e667, 0xbb67ae85, 0x3c6ef372, 0xa54ff53a, 0x510e527f, 0x9b05688c, 0x1f83d9ab, 0x5be0cd19,
      0x428a2f98, 0x61626380, 0x3587272b, 0x1f85c98c, 0xce20b47e, 0x3a6fe667, 0x54da50e8, 0x5d6aebcd, 0xfa2a4622);
    Step(s, m, 1, 0x5d6aebcd, 0x6a09e667, 0xbb67ae85, 0x3c6ef372, 0xfa2a4622, 0x510e527f, 0x9b05688c, 0x1f83d9ab,
      0x71374491, 0x00000000, 0x5a94fd2d, 0x510f6aae, 0xa29f64d1, 0x7b6beec5, 0x3c5f8617, 0x5a6ad9ad, 0x78ce7989);
    Step(s, m, 2, 0x5a6ad9ad, 0x5d6aebcd, 0x6a09e667, 0xbb67ae85, 0x78ce7989, 0xfa2a4622, 0x510e527f, 0x9b05688c,
      0xb5c0fbcf, 0x00000000, 0x73f0e495, 0x790a4276, 0x3096d054, 0x5a6aebed, 0x3dc18b66, 0xc8c347a7, 0xf92939eb);
    Step(s, m, 3, 0xc8c347a7, 0x5a6ad9ad, 0x5d6aebcd, 0x6a09e667, 0xf92939eb, 0x78ce7989, 0xfa2a4622, 0x510e527f,
      0xe9b5dba5, 0x00000000, 0x0607743c, 0x7a0a7f89, 0xc21008d0, 0x586acbad, 0xbad621e9, 0xd550f666, 0x24e00850);
    Step(s, m, 4, 0xd550f666, 0xc8c347a7, 0x5a6ad9ad, 0x5d6aebcd, 0x24e00850, 0xf92939eb, 0x78ce7989, 0xfa2a4622,
      0x3956c25b, 0x00000000, 0x3a933432, 0x782e79c9, 0x45bb0c4b, 0xd842d7a7, 0xe642b678, 0x04409a6a, 0x43ada245);
    Step(s, m, 5, 0x04409a6a, 0xd550f666, 0xc8c347a7, 0x5a6ad9ad, 0x43ada245, 0x24e00850, 0xf92939eb, 0x78ce7989,
      0x59f111f1, 0x00000000, 0x8b77e19c, 0xb8a019ea, 0x5029ac8f, 0xc440d666, 0x16d78700, 0x2b4209f5, 0x714260ad);
    Step(s, m, 6, 0x2b4209f5, 0x04409a6a, 0xd550f666, 0xc8c347a7, 0x714260ad, 0x43ada245, 0x24e00850, 0xf92939eb,
      0x923f82a4, 0x00000000, 0x015b7776, 0x45a02855, 0x0d5e0cc0, 0x05409a66, 0xd2645c5a, 0xe5030380, 0x9b27a401);
    Step(s, m, 7, 0xe5030380, 0x2b4209f5, 0x04409a6a, 0xd550f666, 0x9b27a401, 0x714260ad, 0x43ada245, 0x24e00850,
      0xab1c5ed5, 0x00000000, 0x158dfaa9, 0x518a2245, 0x2949eb6c, 0x25420be0, 0x37148413, 0x85a07b5f, 0x0c657a79);
  }

  lemma Rounds1(s: State, m: Chunk)
    requires s == INITIAL && m == BIG_BLOCK
    ensures Rounds(s, m, 16)
         == Registers(0xb0fa238e, 0xc0645fde, 0xd932eb16, 0x87912990, 0x07590dcd, 0x0b92f20c, 0x745a48de, 0x1e578218)
  {
    hide W, K, Rounds;
    Constants2();
    Constants3();
    Words0(m);
    Rounds0(s, m);
    Step(s, m, 8, 0x85a07b5f, 0xe5030380, 0x2b4209f5, 0x04409a6a, 0x0c657a79, 0x9b27a401, 0x714260ad, 0x43ada245,
      0xd807aa98, 0x00000000, 0x99ad25c0, 0x79272085, 0xba794dc2, 0xa5020bd5, 0x2e899322, 0x8e04ecb9, 0x32ca2d8c);
    Step(s, m, 9, 0x8e04ecb9, 0x85a07b5f, 0xe5030380, 0x2b4209f5, 0x32ca2d8c, 0x0c657a79, 0x9b27a401, 0x714260ad,
      0x12835b01, 0x00000000, 0xe45bb7ea, 0x8965a809, 0x15ffad31, 0x85006b99, 0xf1871ba1, 0x8c87346b, 0x1cc92596);
    Step(s, m, 10, 0x8c87346b, 0x8e04ecb9, 0x85a07b5f, 0xe5030380, 0x1cc92596, 0x32ca2d8c, 0x0c657a79, 0x9b27a401,
      0x243185be, 0x00000000, 0x8e2276bc, 0x10ec7fed, 0x5cac0711, 0x8c847c7b, 0x5e682068, 0x4798a3f4, 0x436b23e8);
    Step(s, m, 11, 0x4798a3f4, 0x8c87346b, 0x8e04ecb9, 0x85a07b5f, 0x436b23e8, 0x1cc92596, 0x32ca2d8c, 0x0c657a79,
      0x550c7dc3, 0x00000000, 0x699435ca, 0x30c92d84, 0x6ccbc526, 0x8e84a4f9, 0xfbcf5b8a, 0xf71fc5a9, 0x816fd6e9);
    Step(s, m, 12, 0xf71fc5a9, 0x4798a3f4, 0x8c87346b, 0x8e04ecb9, 0x816fd6e9, 0x436b23e8, 0x1cc92596, 0x32ca2d8c,
      0x72be5d74, 0x00000000, 0xccdee661, 0x1deb23fe, 0x2f9eee48, 0xc79fa5e9, 0x9052955f, 0x87912990, 0x1e578218);
    Step(s, m, 13, 0x87912990, 0xf71fc5a9, 0x4798a3f4, 0x8c87346b, 0x1e578218, 0x816fd6e9, 0x436b23e8, 0x1cc92596,
      0x80deb1fe, 0x00000000, 0x08bb98f7, 0x416fa3e8, 0x29c634f3, 0xc799a1b0, 0xe7d31473, 0xd932eb16, 0x745a48de);
    Step(s, m, 14, 0xd932eb16, 0x87912990, 0xf71fc5a9, 0x4798a3f4, 0x745a48de, 0x1e578218, 0x816fd6e9, 0x436b23e8,
      0x9bdc06a7, 0x00000000, 0x4f3b8d50, 0x95779639, 0x25562836, 0xd713e990, 0xc3fa4e18, 0xc0645fde, 0x0b92f20c);
    Step(s, m, 15, 0xc0645fde, 0xd932eb16, 0x87912990, 0xf71fc5a9, 0x0b92f20c, 0x745a48de, 0x1e578218, 0x816fd6e9,
      0xc19bf174, 0x00000018, 0xb8d63f93, 0x1457401c, 0xdf906fd4, 0xc1306b96, 0x10394824, 0xb0fa238e, 0x07590dcd);
  }

  lemma Rounds2(s: State, m: Chunk)
    requires s == INITIAL && m == BIG_BLOCK
    ensures Rounds(s, m, 24)
         == Registers(0xc5d53d8d, 0xa7a3623f, 0xc2606d6d, 0x9dc68b63, 0xaa47c347, 0x49f5114a, 0xe1257970, 0x8ada8930)
  {
    hide W, K, Rounds;
    Constants4();
    Constants5();
    Words1(m);
    Rounds1(s, m);
    Step(s, m, 16, 0xb0fa238e, 0xc0645fde, 0xd932eb16, 0x87912990, 0x07590dcd, 0x0b92f20c, 0x745a48de, 0x1e578218,
      0xe49b69c1, 0x61626380, 0x213b6995, 0x7312401e, 0x58c535f1, 0xd0726b9e, 0xf8a2f90c, 0x21da9a9b, 0x8034229c);
    Step(s, m, 17, 0x21da9a9b, 0xb0fa238e, 0xc0645fde, 0xd932eb16, 0x8034229c, 0x07590dcd, 0x0b92f20c, 0x745a48de,
      0xefbe4786, 0x000f0000, 0x3b81984e, 0x0b92d08c, 0x76c5c4f5, 0xa0fa1b9e, 0xab3bf93e, 0xc2fbd9d1, 0x846ee454);
    Step(s, m, 18, 0xc2fbd9d1, 0x21da9a9b, 0xb0fa238e, 0xc0645fde, 0x846ee454, 0x8034229c, 0x07590dcd, 0x0b92f20c,
      0x0fc19dc6, 0x7da86405, 0xeff31c0f, 0x8335299d, 0x5157a6a1, 0xa0fa9b9b, 0x0c253983, 0xfe777bbf, 0xcc899961);
    Step(s, m, 19, 0xfe777bbf, 0xc2fbd9d1, 0x21da9a9b, 0xb0fa238e, 0xcc899961, 0x846ee454, 0x8034229c, 0x07590dcd,
      0x240ca1cc, 0x600003c6, 0xefc707b0, 0x843ca2dc, 0xff8cd2ad, 0xe2fbdb9b, 0xff695deb, 0xe1f20c33, 0xb0638179);
    Step(s, m, 20, 0xe1f20c33, 0xfe777bbf, 0xc2fbd9d1, 0x21da9a9b, 0xb0638179, 0xcc899961, 0x846ee454, 0x8034229c,
      0x2de92c6f, 0x3e9d7b78, 0xf8373ead, 0x840de565, 0x51d3431b, 0xe2f359b3, 0x68ffee95, 0x9dc68b63, 0x8ada8930);
    Step(s, m, 21, 0x9dc68b63, 0xe1f20c33, 0xfe777bbf, 0xc2fbd9d1, 0x8ada8930, 0xb0638179, 0xcc899961, 0x846ee454,
      0x4a7484aa, 0x0183fc00, 0x897ea930, 0xc4439171, 0xa640c29b, 0xfdf60b33, 0x1e299f9f, 0xc2606d6d, 0xe1257970);
    Step(s, m, 22, 0xc2606d6d, 0x9dc68b63, 0xe1f20c33, 0xfe777bbf, 0xe1257970, 0x8ada8930, 0xb0638179, 0xcc899961,
      0x5cb0a9dc, 0x12dcbfdb, 0x7f24093a, 0x90428939, 0x9a43bf51, 0xc1e20d63, 0x4b7d958b, 0xa7a3623f, 0x49f5114a);
    Step(s, m, 23, 0xa7a3623f, 0xc2606d6d, 0x9dc68b63, 0xe1f20c33, 0x49f5114a, 0xe1257970, 0x8ada8930, 0xb0638179,
      0x76f988da, 0xe2e2c38e, 0xfae64fc3, 0xc32f9970, 0x759d1b0a, 0x87e26b6f, 0xc855b714, 0xc5d53d8d, 0xaa47c347);
  }

  lemma Rounds3(s: State, m: Chunk)
    requires s == INITIAL && m == BIG_BLOCK
    ensures Rounds(s, m, 32)
         == Registers(0x73b33bf5, 0xea992a22, 0xa0060b30, 0x363482c9, 0xba591112, 0x0109ab3a, 0xade79437, 0x6112a3b7)
  {
    hide W, K, Rounds;
    Constants6();
    Constants7();
    Words1(m);
    Rounds2(s, m);
    Step(s, m, 24, 0xc5d53d8d, 0xa7a3623f, 0xc2606d6d, 0x9dc68b63, 0xaa47c347, 0x49f5114a, 0xe1257970, 0x8ada8930,
      0x983e5152, 0xc8215c1a, 0x55bdf420, 0x49653972, 0xc9ed56dd, 0xc7e16d2d, 0x8a5d642e, 0x1c2c2838, 0x2823ef91);
    Step(s, m, 25, 0x1c2c2838, 0xc5d53d8d, 0xa7a3623f, 0xc2606d6d, 0x2823ef91, 0xaa47c347, 0x49f5114a, 0xe1257970,
      0xa831c66d, 0xb73679a2, 0xa7724357, 0x69d7d34b, 0xf66b0b1f, 0x85a5283d, 0x51d7d021, 0xcde8037d, 0x14383d8e);
    Step(s, m, 26, 0xcde8037d, 0x1c2c2838, 0xc5d53d8d, 0xa7a3623f, 0x14383d8e, 0x2823ef91, 0xaa47c347, 0x49f5114a,
      0xb00327c8, 0xe5bc3909, 0x958ca0fb, 0xaa67efc1, 0xc89998a8, 0xcdec293d, 0x1fa902d7, 0xb62ec4bc, 0xc74c6516);
    Step(s, m, 27, 0xb62ec4bc, 0xcde8037d, 0x1c2c2838, 0xc5d53d8d, 0xc74c6516, 0x14383d8e, 0x2823ef91, 0xaa47c347,
      0xbf597fc7, 0x32663c5b, 0x5ff7537b, 0x2c2baf87, 0xb37cf281, 0x9c2c003c, 0x282a826b, 0x77d37528, 0xedffbff8);
    Step(s, m, 28, 0x77d37528, 0xb62ec4bc, 0xcde8037d, 0x1c2c2838, 0xedffbff8, 0xc74c6516, 0x14383d8e, 0x2823ef91,
      0xc6e00bf3, 0x9d209d67, 0xe375bd7e, 0xd54c2516, 0xf963c20e, 0xf7ea453c, 0x44e67b7f, 0x363482c9, 0x6112a3b7);
    Step(s, m, 29, 0x363482c9, 0x77d37528, 0xb62ec4bc, 0xcde8037d, 0x6112a3b7, 0xedffbff8, 0xc74c6516, 0x14383d8e,
      0xd5a79147, 0xec8726cb, 0x2239b36a, 0xe75ee7b0, 0x89cfb5ce, 0x3636c4a8, 0xdfff90ba, 0xa0060b30, 0xade79437);
    Step(s, m, 30, 0xa0060b30, 0x363482c9, 0x77d37528, 0xb62ec4bc, 0xade79437, 0x6112a3b7, 0xedffbff8, 0xc74c6516,
      0x06ca6351, 0x702138a4, 0xab883974, 0x611aabff, 0x69a8407c, 0x36160328, 0x4adae67e, 0xea992a22, 0x0109ab3a);
    Step(s, m, 31, 0xea992a22, 0xa0060b30, 0x363482c9, 0x77d37528, 0x0109ab3a, 0xade79437, 0x6112a3b7, 0xedffbff8,
      0x14292967, 0xd3b7973b, 0x0b919a99, 0x611380b7, 0x8f1995eb, 0xa2140a20, 0x42859bea, 0x73b33bf5, 0xba591112);
  }

  lemma Rounds4(s: State, m: Chunk)
    requires s == INITIAL && m == BIG_BLOCK
    ensures Rounds(s, m, 40)
         == Registers(0x79ea687a, 0x6dc57a8a, 0x34df1604, 0x41a65cb1, 0x1efbc0a0, 0xf0781bc8, 0xa507a53d, 0x0772a26b)
  {
    hide W, K, Rounds;
    Constants8();
    Constants9();
    Words2(m);
    Rounds3(s, m);
    Step(s, m, 32, 0x73b33bf5, 0xea992a22, 0xa0060b30, 0x363482c9, 0xba591112, 0x0109ab3a, 0xade79437, 0x6112a3b7,
      0x27b70a85, 0x93f5997f, 0x4436a63b, 0x05af8537, 0x4fa886aa, 0xe2932b30, 0x66a5732d, 0x98e12507, 0x9cd9f5f6);
    Step(s, m, 33, 0x98e12507, 0x73b33bf5, 0xea992a22, 0xa0060b30, 0x9cd9f5f6, 0xba591112, 0x0109ab3a, 0xade79437,
      0x2e1b2138, 0x3b68ba73, 0x085a07a7, 0x99591b1a, 0x4a90902b, 0xfab12b27, 0xb91e92a3, 0xfe604df5, 0x59249dd3);
    Step(s, m, 34, 0xfe604df5, 0x98e12507, 0x73b33bf5, 0xea992a22, 0x59249dd3, 0x9cd9f5f6, 0xba591112, 0x0109ab3a,
      0x4d2c6dfc, 0xaff4ffc1, 0x65415f48, 0xba5995d2, 0x91003786, 0xfae12df5, 0x1dc60e11, 0xa9a7738c, 0x085f3833);
    Step(s, m, 35, 0xa9a7738c, 0xfe604df5, 0x98e12507, 0x73b33bf5, 0x085f3833, 0x59249dd3, 0x9cd9f5f6, 0xba591112,
      0x53380d13, 0xf10a5c62, 0xe5dc6e83, 0x9c84ddd7, 0x2bc2a37e, 0xb8e16585, 0x80fcc6e1, 0x65a0cfe4, 0xf4b002d6);
    Step(s, m, 36, 0x65a0cfe4, 0xa9a7738c, 0xfe604df5, 0x98e12507, 0xf4b002d6, 0x085f3833, 0x59249dd3, 0x9cd9f5f6,
      0x650a7354, 0x0a8b3996, 0x590d3d71, 0x09149d13, 0xe5748f69, 0xeda04fe4, 0x6e917d64, 0x41a65cb1, 0x0772a26b);
    Step(s, m, 37, 0x41a65cb1, 0x65a0cfe4, 0xa9a7738c, 0xfe604df5, 0x0772a26b, 0xf4b002d6, 0x085f3833, 0x59249dd3,
      0x766a0abb, 0x72af830a, 0x582c115e, 0x0c3d1a52, 0x2c915f18, 0x61a65fa4, 0xa6a75748, 0x34df1604, 0xa507a53d);
    Step(s, m, 38, 0x34df1604, 0x41a65cb1, 0x65a0cfe4, 0xa9a7738c, 0xa507a53d, 0x0772a26b, 0xf4b002d6, 0x085f3833,
      0x81c2c92e, 0x9409e33e, 0xd2f220b2, 0x55b2a2eb, 0xc14e73aa, 0x65a65ea4, 0x46d0a83c, 0x6dc57a8a, 0xf0781bc8);
    Step(s, m, 39, 0x6dc57a8a, 0x34df1604, 0x41a65cb1, 0x65a0cfe4, 0xf0781bc8, 0xa507a53d, 0x0772a26b, 0xf4b002d6,
      0x92722c85, 0x24641522, 0x66d20b14, 0xa702a12b, 0x5ac8193e, 0x65c75e80, 0xb95af0bc, 0x79ea687a, 0x1efbc0a0);
  }

  lemma Rounds5(s: State, m: Chunk)
    requires s == INITIAL && m == BIG_BLOCK
    ensures Rounds(s, m, 48)
         == Registers(0x4172328d, 0xa14c14b0, 0x72ab4b91, 0x26628815, 0xfecf0bc6, 0xd57b94a9, 0xb7755da1, 0xa80f11f0)
  {
    hide W, K, Rounds;
    Constants10();
    Constants11();
    Words2(m);
    Rounds4(s, m);
    Step(s, m, 40, 0x79ea687a, 0x6dc57a8a, 0x34df1604, 0x41a65cb1, 0x1efbc0a0, 0xf0781bc8, 0xa507a53d, 0x0772a26b,
      0xa2bfe8a1, 0x9f47bf94, 0xe9986075, 0xb17c259d, 0x7408bcaa, 0x7dcf7a0a, 0xe48ed0b2, 0xd6670766, 0x26352d63);
    Step(s, m, 41, 0xd6670766, 0x79ea687a, 0x6dc57a8a, 0x34df1604, 0x26352d63, 0x1efbc0a0, 0xf0781bc8, 0xa507a53d,
      0xa81a664b, 0xf0a64f5a, 0x3a6aa383, 0xd67912a8, 0x12b2e9b8, 0x7de76a6a, 0x4eac110d, 0xdf46652f, 0x838b2711);
    Step(s, m, 42, 0xdf46652f, 0xd6670766, 0x79ea687a, 0x6dc57a8a, 0x838b2711, 0x26352d63, 0x1efbc0a0, 0xf0781bc8,
      0xc24b8b70, 0x3e246a79, 0x61add539, 0x1e71e5a1, 0xc73bdc05, 0xdf66656e, 0x7107cc8b, 0x17aa0dfe, 0xdecd4715);
    Step(s, m, 43, 0x17aa0dfe, 0xdf46652f, 0xd6670766, 0x79ea687a, 0xdecd4715, 0x838b2711, 0x26352d63, 0x1efbc0a0,
      0xc76c51a3, 0x27333ba3, 0xd363665b, 0xa2b92f73, 0x422dc671, 0xd766056e, 0x83b7e3b4, 0x9d4baf93, 0xfda24c2e);
    Step(s, m, 44, 0x9d4baf93, 0x17aa0dfe, 0xdf46652f, 0xd6670766, 0xfda24c2e, 0xdecd4715, 0x838b2711, 0x26352d63,
      0xd192e819, 0x0c4763f2, 0xef0f2a07, 0xde896715, 0xb5704fcc, 0x9f4a2dbf, 0xd1a80a8a, 0x26628815, 0xa80f11f0);
    Step(s, m, 45, 0x26628815, 0x9d4baf93, 0x17aa0dfe, 0xdf46652f, 0xa80f11f0, 0xfda24c2e, 0xdecd4715, 0x838b2711,
      0xd6990624, 0x840abf27, 0xfb3dc5f1, 0xfec24625, 0x8311c588, 0x176a8d97, 0xd82ef872, 0x72ab4b91, 0xb7755da1);
    Step(s, m, 46, 0x72ab4b91, 0x26628815, 0x9d4baf93, 0x17aa0dfe, 0xb7755da1, 0xa80f11f0, 0xfda24c2e, 0xdecd4715,
      0xf40e3585, 0x7a290d5d, 0x8845eb06, 0xe88711ae, 0xad0f0274, 0x366b8b91, 0xbdd186ab, 0xa14c14b0, 0xd57b94a9);
    Step(s, m, 47, 0xa14c14b0, 0x72ab4b91, 0x26628815, 0x9d4baf93, 0xd57b94a9, 0xb7755da1, 0xa80f11f0, 0xfda24c2e,
      0x106aa070, 0x065c43da, 0x8fa515ca, 0xbd7515f1, 0xbd84cdc9, 0x226a0891, 0x61835c33, 0x4172328d, 0xfecf0bc6);
  }

  lemma Rounds6(s: State, m: Chunk)
    requires s == INITIAL && m == BIG_BLOCK
    ensures Rounds(s, m, 56)
         == Registers(0x38cc9913, 0x3ec45cdb, 0xf5702fdb, 0x101fd28f, 0x54cb266b, 0xe50e1b4f, 0x9f4787c3, 0x529e7d00)
  {
    hide W, K, Rounds;
    Constants12();
    Constants13();
    Words3(m);
    Rounds5(s, m);
    Step(s, m, 48, 0x4172328d, 0xa14c14b0, 0x72ab4b91, 0x26628815, 0xfecf0bc6, 0xd57b94a9, 0xb7755da1, 0xa80f11f0,
      0x19a4c116, 0xfb3e89cb, 0x04a106b1, 0xd57b54a1, 0x0cfcb237, 0x616a1291, 0x970eb823, 0x05757ceb, 0xbd714038);
    Step(s, m, 49, 0x05757ceb, 0x4172328d, 0xa14c14b0, 0x72ab4b91, 0xbd714038, 0xfecf0bc6, 0xd57b94a9, 0xb7755da1,
      0x1e376c08, 0xcc7617db, 0x5d427776, 0xfc4b9481, 0xf3f6d884, 0x017434a9, 0xfbb0ed7b, 0xf11bfaa8, 0x6e5c390c);
    Step(s, m, 50, 0xf11bfaa8, 0x05757ceb, 0x4172328d, 0xa14c14b0, 0x6e5c390c, 0xbd714038, 0xfecf0bc6, 0xd57b94a9,
      0x2748774c, 0xb9e66c34, 0x3e283d54, 0xbcd302ca, 0x86ebd5b1, 0x41737aa9, 0xb1a5b847, 0x7a0508a1, 0x52f1ccf7);
    Step(s, m, 51, 0x7a0508a1, 0xf11bfaa8, 0x05757ceb, 0x4172328d, 0x52f1ccf7, 0x6e5c390c, 0xbd714038, 0xfecf0bc6,
      0x34b0bcb5, 0xa9993667, 0x3b47e2a3, 0xef50080c, 0x0fa817e8, 0x711578a9, 0x07b0e991, 0x886e7a22, 0x49231c1e);
    Step(s, m, 52, 0x886e7a22, 0x7a0508a1, 0xf11bfaa8, 0x05757ceb, 0x49231c1e, 0x52f1ccf7, 0x6e5c390c, 0xbd714038,
      0x391c0cb3, 0x84badedd, 0x6b63a737, 0x667d2d16, 0xcae757da, 0xf80f7aa0, 0x4d290015, 0x101fd28f, 0x529e7d00);
    Step(s, m, 53, 0x101fd28f, 0x886e7a22, 0x7a0508a1, 0xf11bfaa8, 0x529e7d00, 0x49231c1e, 0x52f1ccf7, 0x6e5c390c,
      0x4ed8aa4a, 0xc21462bc, 0xee7eaa12, 0x40639cf7, 0x2f35481d, 0x180f5aa3, 0xae2b8d1b, 0xf5702fdb, 0x9f4787c3);
    Step(s, m, 54, 0xf5702fdb, 0x101fd28f, 0x886e7a22, 0x7a0508a1, 0x9f4787c3, 0x529e7d00, 0x49231c1e, 0x52f1ccf7,
      0x5b9cca4f, 0x1487472c, 0x55cd1720, 0x52261d1c, 0x433ccfa2, 0x907e7a8b, 0x6b0912ae, 0x3ec45cdb, 0xe50e1b4f);
    Step(s, m, 55, 0x3ec45cdb, 0xf5702fdb, 0x101fd28f, 0x886e7a22, 0xe50e1b4f, 0x9f4787c3, 0x529e7d00, 0x49231c1e,
      0x682e6ff3, 0xb20f7a99, 0xd1653e5c, 0x97966743, 0x381b8def, 0x34545edb, 0xcc5cac49, 0x38cc9913, 0x54cb266b);
  }

  lemma Rounds7(s: State, m: Chunk)
    requires s == INITIAL && m == BIG_BLOCK
    ensures Rounds(s, m, 64)
         == Registers(0x506e3058, 0xd39a2165, 0x04d24d6c, 0xb85e2ce9, 0x5ef50f24, 0xfb121210, 0x948d25b6, 0x961f4894)
  {
    hide W, K, Rounds;
    Constants14();
    Constants15();
    Words3(m);
    Rounds6(s, m);
    Step(s, m, 56, 0x38cc9913, 0x3ec45cdb, 0xf5702fdb, 0x101fd28f, 0x54cb266b, 0xe50e1b4f, 0x9f4787c3, 0x529e7d00,
      0x748f82ee, 0xef57b9cd, 0x05aa8057, 0xcf0e83cb, 0x34ceacc3, 0x3cc41ddb, 0x8b3ebddd, 0xfcd1887b, 0x9b5e906c);
    Step(s, m, 57, 0xfcd1887b, 0x38cc9913, 0x3ec45cdb, 0xf5702fdb, 0x9b5e906c, 0x54cb266b, 0xe50e1b4f, 0x9f4787c3,
      0x78a5636f, 0xebe6b238, 0x10b627de, 0x744a0b6b, 0xfaca6b61, 0x3cc4985b, 0x88d3d0b3, 0xc062d46f, 0x7e44008e);
    Step(s, m, 58, 0xc062d46f, 0xfcd1887b, 0x38cc9913, 0x3ec45cdb, 0x7e44008e, 0x9b5e906c, 0x54cb266b, 0xe50e1b4f,
      0x84c87814, 0x9fe3095e, 0x0a369fbd, 0x1acf266d, 0xd837090c, 0xf8c0987b, 0x2ebf62eb, 0xffb70472, 0x6d83bfc6);
    Step(s, m, 59, 0xffb70472, 0xc062d46f, 0xfcd1887b, 0x38cc9913, 0x6d83bfc6, 0x7e44008e, 0x9b5e906c, 0x54cb266b,
      0x8cc70208, 0x78bc8d4b, 0x20a45dbe, 0xfe5c00ae, 0x406bf75a, 0xfcf3847b, 0x794f142a, 0xb6ae8fff, 0xb21bad3d);
    Step(s, m, 60, 0xb6ae8fff, 0xffb70472, 0xc062d46f, 0xfcd1887b, 0xb21bad3d, 0x6d83bfc6, 0x7e44008e, 0x9b5e906c,
      0x90befffa, 0xa43fcf15, 0x5ca8b318, 0x6c47ad86, 0x2869e851, 0xf6a6847f, 0x994dc019, 0xb85e2ce9, 0x961f4894);
    Step(s, m, 61, 0xb85e2ce9, 0xb6ae8fff, 0xffb70472, 0xc062d46f, 0x961f4894, 0xb21bad3d, 0x6d83bfc6, 0x7e44008e,
      0xa4506ceb, 0x668b2ff8, 0x4f6ef480, 0xfb9bbf56, 0x71e9ef2a, 0xbebe0cfb, 0xd42a5147, 0x04d24d6c, 0x948d25b6);
    Step(s, m, 62, 0x04d24d6c, 0xb85e2ce9, 0xb6ae8fff, 0xffb70472, 0x948d25b6, 0x961f4894, 0xb21bad3d, 0x6d83bfc6,
      0xbef9a3f7, 0xeeaba2cc, 0x2a127e78, 0xb61f889d, 0x236105da, 0xb4de0ded, 0xfb5b0d9e, 0xd39a2165, 0xfb121210);
    Step(s, m, 63, 0xd39a2165, 0x04d24d6c, 0xb85e2ce9, 0xb6ae8fff, 0xfb121210, 0x948d25b6, 0x961f4894, 0xb21bad3d,
      0xc67178f2, 0x12b1edeb, 0x88fa2277, 0x940d4894, 0x174d83c6, 0x90da2d6d, 0xa8467f25, 0x506e3058, 0x5ef50f24);
  }

  const HASH: seq<bv8> := [0xba, 0x78, 0x16, 0xbf] + [0x8f, 0x01, 0xcf, 0xea] + [0x41, 0x41, 0x40, 0xde]
    + [0x5d, 0xae, 0x22, 0x23] + [0xb0, 0x03, 0x61, 0xa3] + [0x96, 0x17, 0x7a, 0x9c] + [0xb4, 0x10, 0xff, 0x61]
    + [0xf2, 0x00, 0x15, 0xad]

  lemma WordBytes()
    ensures BigBytes(0xba7816bf) == [0xba, 0x78, 0x16, 0xbf] && BigBytes(0x8f01cfea) == [0x8f, 0x01, 0xcf, 0xea]
    ensures BigBytes(0x414140de) == [0x41, 0x41, 0x40, 0xde] && BigBytes(0x5dae2223) == [0x5d, 0xae, 0x22, 0x23]
    ensures BigBytes(0xb00361a3) == [0xb0, 0x03, 0x61, 0xa3] && BigBytes(0x96177a9c) == [0x96, 0x17, 0x7a, 0x9c]
    ensures BigBytes(0xb410ff61) == [0xb4, 0x10, 0xff, 0x61] && BigBytes(0xf20015ad) == [0xf2, 0x00, 0x15, 0xad]
  {
  }

  lemma Total(s: State)
    requires s == INITIAL
    ensures Sum(s, Registers(0x506e3058, 0xd39a2165, 0x04d24d6c, 0xb85e2ce9, 0x5ef50f24, 0xfb121210, 0x948d25b6,
                             0x961f4894))
         == [0xba7816bf, 0x8f01cfea, 0x414140de, 0x5dae2223, 0xb00361a3, 0x96177a9c, 0xb410ff61, 0xf20015ad]
  {
    Initials();
  }

  lemma DigestBytes(xs: seq<bv32>)
    requires xs == [0xba7816bf, 0x8f01cfea, 0x414140de, 0x5dae2223, 0xb00361a3, 0x96177a9c, 0xb410ff61, 0xf20015ad]
    ensures BigAll(xs) == HASH
  {
    WordBytes();
    hide BigBytes, BigAll;
    BigNext(xs, 0);
    BigNext(xs, 1);
    BigNext(xs, 2);
    BigNext(xs, 3);
    BigNext(xs, 4);
    BigNext(xs, 5);
    BigNext(xs, 6);
    BigNext(xs, 7);
    assert xs[..8] == xs;
  }

  lemma Example()
    ensures Digest(ABC) == HASH
  {
    Padded();
    Rounds7(INITIAL, BIG_BLOCK);
    Total(INITIAL);
    hide Rounds, Sum, Padding, BigLength, BitLength, BigAll;
    CompressIs(INITIAL, BIG_BLOCK);
    OneBlock(INITIAL, BIG_BLOCK);
    DigestBytes(Compress(INITIAL, BIG_BLOCK));
  }
}
