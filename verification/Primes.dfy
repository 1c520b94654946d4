/** The first primes, in order. */
module Primes {
  import opened Division
  /** A number of two or more that is no product of two such numbers. */
  ghost predicate Prime(p: nat) {
    2 <= p && forall a: nat, b: nat :: 2 <= a && 2 <= b ==> a * b != p
  }

  /** How many primes there are below n. */
  ghost function PrimesBelow(n: nat): nat {
    if n == 0 then 0 else PrimesBelow(n - 1) + if Prime(n - 1) then 1 else 0
  }

  /** n is a multiple of a prime below 19. */
  predicate Sieved(n: nat) {
    n % 2 == 0 || n % 3 == 0 || n % 5 == 0 || n % 7 == 0 || n % 11 == 0 || n % 13 == 0 || n % 17 == 0
  }

  lemma SmallSieved(n: nat)
    requires 2 <= n < 19
    ensures Sieved(n)
  {
  }

  lemma MultipleOf(a: nat, b: nat, d: nat)
    requires 0 < d
    ensures a % d == 0 ==> a * b % d == 0
  {
    if a % d == 0 {
      var k := a / d;
      assert a == d * k;
      assert a * b == d * (k * b);
      ModUnique(k * b, 0, d);
    }
  }

  lemma MultipleSieved(a: nat, b: nat, n: nat)
    requires Sieved(a) && n == a * b
    ensures Sieved(n)
  {
    MultipleOf(a, b, 2);
    MultipleOf(a, b, 3);
    MultipleOf(a, b, 5);
    MultipleOf(a, b, 7);
    MultipleOf(a, b, 11);
    MultipleOf(a, b, 13);
    MultipleOf(a, b, 17);
  }

  lemma SquareBound(a: nat, b: nat)
    requires 19 <= a && 19 <= b
    ensures a * b >= 361
  {
  }

  /** What the sieve leaves below 19 * 19 is prime. */
  lemma LeftOver(p: nat)
    requires 2 <= p < 361 && !Sieved(p)
    ensures Prime(p)
  {
    hide Sieved;
    forall a: nat, b: nat | 2 <= a && 2 <= b ensures a * b != p {
      if a * b == p {
        if a < 19 {
          SmallSieved(a);
          MultipleSieved(a, b, p);
        } else if b < 19 {
          SmallSieved(b);
          MultipleSieved(b, a, p);
        } else {
          SquareBound(a, b);
        }
      }
    }
  }

  lemma TinyPrime(p: nat)
    requires 2 <= p < 25 && (p % 2 == 0 ==> p == 2) && (p % 3 == 0 ==> p == 3)
    ensures Prime(p)
  {
    forall a: nat, b: nat | 2 <= a && 2 <= b ensures a * b != p {
      if a * b == p {
        if a < 5 {
          TinyFactor(a, b, p);
        } else if b < 5 {
          TinyFactor(b, a, p);
        } else {
          AtLeastFive(a, b);
        }
      }
    }
  }

  lemma AtLeastFive(a: nat, b: nat)
    requires 5 <= a && 5 <= b
    ensures a * b >= 25
  {
  }

  lemma TinyFactor(a: nat, b: nat, p: nat)
    requires 2 <= a < 5 && 2 <= b && a * b == p
    ensures p % 2 == 0 || p % 3 == 0
    ensures p > 3
  {
    MultipleOf(a, b, 2);
    MultipleOf(a, b, 3);
  }

  lemma Composite(n: nat)
    requires 18 <= n && Sieved(n)
    ensures !Prime(n)
  {
    if n % 2 == 0 {
      assert 2 * (n / 2) == n;
    } else if n % 3 == 0 {
      assert 3 * (n / 3) == n;
    } else if n % 5 == 0 {
      assert 5 * (n / 5) == n;
    } else if n % 7 == 0 {
      assert 7 * (n / 7) == n;
    } else if n % 11 == 0 {
      assert 11 * (n / 11) == n;
    } else if n % 13 == 0 {
      assert 13 * (n / 13) == n;
    } else {
      assert 17 * (n / 17) == n;
    }
  }

  lemma {:induction false} NoneBetween(p: nat, q: nat)
    requires p <= q && forall n: nat :: p <= n < q ==> !Prime(n)
    ensures PrimesBelow(q) == PrimesBelow(p)
    decreases q
  {
    if p < q {
      NoneBetween(p, q - 1);
    }
  }

  lemma OneMore(p: nat)
    requires Prime(p)
    ensures PrimesBelow(p + 1) == PrimesBelow(p) + 1
  {
    hide Prime;
  }

  lemma EvenSieved(n: nat)
    requires n % 2 == 0
    ensures Sieved(n)
  {
  }

  /** After the odd prime p, the sieve takes all odd numbers up to q, of which there are at most six, and not q. */
  lemma Next(p: nat, q: nat, t: nat)
    requires 17 <= p < q < 361 && q <= p + 14 && p % 2 == 1 && Prime(p) && PrimesBelow(p) == t && !Sieved(q)
    requires (q <= p + 2 || Sieved(p + 2)) && (q <= p + 4 || Sieved(p + 4)) && (q <= p + 6 || Sieved(p + 6))
    requires (q <= p + 8 || Sieved(p + 8)) && (q <= p + 10 || Sieved(p + 10)) && (q <= p + 12 || Sieved(p + 12))
    ensures Prime(q) && PrimesBelow(q) == t + 1
  {
    hide Sieved, Prime;
    LeftOver(q);
    forall n: nat | p + 1 <= n < q ensures !Prime(n) {
      if n % 2 == 0 {
        EvenSieved(n);
      } else {
        assert n == p + 2 || n == p + 4 || n == p + 6 || n == p + 8 || n == p + 10 || n == p + 12;
      }
      Composite(n);
    }
    hide PrimesBelow;
    NoneBetween(p + 1, q);
    OneMore(p);
  }

  /** Below 17 there are six. */
  lemma FirstSix()
    ensures PrimesBelow(17) == 6 && Prime(17)
    ensures PrimesBelow(2) == 0 && Prime(2) && PrimesBelow(3) == 1 && Prime(3) && PrimesBelow(5) == 2 && Prime(5)
    ensures PrimesBelow(7) == 3 && Prime(7) && PrimesBelow(11) == 4 && Prime(11) && PrimesBelow(13) == 5 && Prime(13)
  {
    TinyPrime(2);
    TinyPrime(3);
    TinyPrime(5);
    TinyPrime(7);
    TinyPrime(11);
    TinyPrime(13);
    TinyPrime(17);
    assert 2 * 2 == 4 && 2 * 3 == 6 && 2 * 4 == 8 && 3 * 3 == 9 && 2 * 5 == 10 && 2 * 6 == 12 && 2 * 7 == 14;
    assert 3 * 5 == 15 && 2 * 8 == 16;
  }

  lemma PrimesFrom17()
    ensures PrimesBelow(19) == 7 && Prime(19) && PrimesBelow(23) == 8 && Prime(23) && PrimesBelow(29) == 9 && Prime(29)
    ensures PrimesBelow(31) == 10 && Prime(31) && PrimesBelow(37) == 11 && Prime(37)
    ensures PrimesBelow(41) == 12 && Prime(41)
    ensures PrimesBelow(43) == 13 && Prime(43) && PrimesBelow(47) == 14 && Prime(47)
    ensures PrimesBelow(53) == 15 && Prime(53)
  {
    hide Prime, PrimesBelow;
    FirstSix();
    Next(17, 19, 6);
    Next(19, 23, 7);
    Next(23, 29, 8);
    Next(29, 31, 9);
    Next(31, 37, 10);
    Next(37, 41, 11);
    Next(41, 43, 12);
    Next(43, 47, 13);
    Next(47, 53, 14);
  }

  lemma PrimesFrom53()
    requires PrimesBelow(53) == 15 && Prime(53)
    ensures PrimesBelow(59) == 16 && Prime(59) && PrimesBelow(61) == 17 && Prime(61)
    ensures PrimesBelow(67) == 18 && Prime(67)
    ensures PrimesBelow(71) == 19 && Prime(71) && PrimesBelow(73) == 20 && Prime(73)
    ensures PrimesBelow(79) == 21 && Prime(79)
    ensures PrimesBelow(83) == 22 && Prime(83) && PrimesBelow(89) == 23 && Prime(89)
  {
    hide Prime, PrimesBelow;
    Next(53, 59, 15);
    Next(59, 61, 16);
    Next(61, 67, 17);
    Next(67, 71, 18);
    Next(71, 73, 19);
    Next(73, 79, 20);
    Next(79, 83, 21);
    Next(83, 89, 22);
  }

  lemma PrimesFrom89()
    requires PrimesBelow(89) == 23 && Prime(89)
    ensures PrimesBelow(97) == 24 && Prime(97) && PrimesBelow(101) == 25 && Prime(101)
    ensures PrimesBelow(103) == 26 && Prime(103)
    ensures PrimesBelow(107) == 27 && Prime(107) && PrimesBelow(109) == 28 && Prime(109)
    ensures PrimesBelow(113) == 29 && Prime(113)
    ensures PrimesBelow(127) == 30 && Prime(127) && PrimesBelow(131) == 31 && Prime(131)
  {
    hide Prime, PrimesBelow;
    Next(89, 97, 23);
    Next(97, 101, 24);
    Next(101, 103, 25);
    Next(103, 107, 26);
    Next(107, 109, 27);
    Next(109, 113, 28);
    Next(113, 127, 29);
    Next(127, 131, 30);
  }

  lemma PrimesFrom131()
    requires PrimesBelow(131) == 31 && Prime(131)
    ensures PrimesBelow(137) == 32 && Prime(137) && PrimesBelow(139) == 33 && Prime(139)
    ensures PrimesBelow(149) == 34 && Prime(149)
    ensures PrimesBelow(151) == 35 && Prime(151) && PrimesBelow(157) == 36 && Prime(157)
    ensures PrimesBelow(163) == 37 && Prime(163)
    ensures PrimesBelow(167) == 38 && Prime(167) && PrimesBelow(173) == 39 && Prime(173)
  {
    hide Prime, PrimesBelow;
    Next(131, 137, 31);
    Next(137, 139, 32);
    Next(139, 149, 33);
    Next(149, 151, 34);
    Next(151, 157, 35);
    Next(157, 163, 36);
    Next(163, 167, 37);
    Next(167, 173, 38);
  }

  lemma PrimesFrom173()
    requires PrimesBelow(173) == 39 && Prime(173)
    ensures PrimesBelow(179) == 40 && Prime(179) && PrimesBelow(181) == 41 && Prime(181)
    ensures PrimesBelow(191) == 42 && Prime(191)
    ensures PrimesBelow(193) == 43 && Prime(193) && PrimesBelow(197) == 44 && Prime(197)
    ensures PrimesBelow(199) == 45 && Prime(199)
    ensures PrimesBelow(211) == 46 && Prime(211) && PrimesBelow(223) == 47 && Prime(223)
  {
    hide Prime, PrimesBelow;
    Next(173, 179, 39);
    Next(179, 181, 40);
    Next(181, 191, 41);
    Next(191, 193, 42);
    Next(193, 197, 43);
    Next(197, 199, 44);
    Next(199, 211, 45);
    Next(211, 223, 46);
  }

  lemma PrimesFrom223()
    requires PrimesBelow(223) == 47 && Prime(223)
    ensures PrimesBelow(227) == 48 && Prime(227) && PrimesBelow(229) == 49 && Prime(229)
    ensures PrimesBelow(233) == 50 && Prime(233)
    ensures PrimesBelow(239) == 51 && Prime(239) && PrimesBelow(241) == 52 && Prime(241)
    ensures PrimesBelow(251) == 53 && Prime(251)
    ensures PrimesBelow(257) == 54 && Prime(257) && PrimesBelow(263) == 55 && Prime(263)
  {
    hide Prime, PrimesBelow;
    Next(223, 227, 47);
    Next(227, 229, 48);
    Next(229, 233, 49);
    Next(233, 239, 50);
    Next(239, 241, 51);
    Next(241, 251, 52);
    Next(251, 257, 53);
    Next(257, 263, 54);
  }

  lemma PrimesFrom263()
    requires PrimesBelow(263) == 55 && Prime(263)
    ensures PrimesBelow(269) == 56 && Prime(269) && PrimesBelow(271) == 57 && Prime(271)
    ensures PrimesBelow(277) == 58 && Prime(277)
    ensures PrimesBelow(281) == 59 && Prime(281) && PrimesBelow(283) == 60 && Prime(283)
    ensures PrimesBelow(293) == 61 && Prime(293)
    ensures PrimesBelow(307) == 62 && Prime(307) && PrimesBelow(311) == 63 && Prime(311)
  {
    hide Prime, PrimesBelow;
    Next(263, 269, 55);
    Next(269, 271, 56);
    Next(271, 277, 57);
    Next(277, 281, 58);
    Next(281, 283, 59);
    Next(283, 293, 60);
    Next(293, 307, 61);
    Next(307, 311, 62);
  }

  /** The first 64 primes. */
  lemma AllPrimes()
    ensures PrimesBelow(2) == 0 && Prime(2) && PrimesBelow(3) == 1 && Prime(3) && PrimesBelow(5) == 2 && Prime(5)
    ensures PrimesBelow(7) == 3 && Prime(7) && PrimesBelow(11) == 4 && Prime(11) && PrimesBelow(13) == 5 && Prime(13)
    ensures PrimesBelow(17) == 6 && Prime(17) && PrimesBelow(19) == 7 && Prime(19) && PrimesBelow(23) == 8 && Prime(23)
    ensures PrimesBelow(29) == 9 && Prime(29) && PrimesBelow(31) == 10 && Prime(31)
    ensures PrimesBelow(37) == 11 && Prime(37)
    ensures PrimesBelow(41) == 12 && Prime(41) && PrimesBelow(43) == 13 && Prime(43)
    ensures PrimesBelow(47) == 14 && Prime(47)
    ensures PrimesBelow(53) == 15 && Prime(53) && PrimesBelow(59) == 16 && Prime(59)
    ensures PrimesBelow(61) == 17 && Prime(61)
    ensures PrimesBelow(67) == 18 && Prime(67) && PrimesBelow(71) == 19 && Prime(71)
    ensures PrimesBelow(73) == 20 && Prime(73)
    ensures PrimesBelow(79) == 21 && Prime(79) && PrimesBelow(83) == 22 && Prime(83)
    ensures PrimesBelow(89) == 23 && Prime(89)
    ensures PrimesBelow(97) == 24 && Prime(97) && PrimesBelow(101) == 25 && Prime(101)
    ensures PrimesBelow(103) == 26 && Prime(103)
    ensures PrimesBelow(107) == 27 && Prime(107) && PrimesBelow(109) == 28 && Prime(109)
    ensures PrimesBelow(113) == 29 && Prime(113)
    ensures PrimesBelow(127) == 30 && Prime(127) && PrimesBelow(131) == 31 && Prime(131)
    ensures PrimesBelow(137) == 32 && Prime(137)
    ensures PrimesBelow(139) == 33 && Prime(139) && PrimesBelow(149) == 34 && Prime(149)
    ensures PrimesBelow(151) == 35 && Prime(151)
    ensures PrimesBelow(157) == 36 && Prime(157) && PrimesBelow(163) == 37 && Prime(163)
    ensures PrimesBelow(167) == 38 && Prime(167)
    ensures PrimesBelow(173) == 39 && Prime(173) && PrimesBelow(179) == 40 && Prime(179)
    ensures PrimesBelow(181) == 41 && Prime(181)
    ensures PrimesBelow(191) == 42 && Prime(191) && PrimesBelow(193) == 43 && Prime(193)
    ensures PrimesBelow(197) == 44 && Prime(197)
    ensures PrimesBelow(199) == 45 && Prime(199) && PrimesBelow(211) == 46 && Prime(211)
    ensures PrimesBelow(223) == 47 && Prime(223)
    ensures PrimesBelow(227) == 48 && Prime(227) && PrimesBelow(229) == 49 && Prime(229)
    ensures PrimesBelow(233) == 50 && Prime(233)
    ensures PrimesBelow(239) == 51 && Prime(239) && PrimesBelow(241) == 52 && Prime(241)
    ensures PrimesBelow(251) == 53 && Prime(251)
    ensures PrimesBelow(257) == 54 && Prime(257) && PrimesBelow(263) == 55 && Prime(263)
    ensures PrimesBelow(269) == 56 && Prime(269)
    ensures PrimesBelow(271) == 57 && Prime(271) && PrimesBelow(277) == 58 && Prime(277)
    ensures PrimesBelow(281) == 59 && Prime(281)
    ensures PrimesBelow(283) == 60 && Prime(283) && PrimesBelow(293) == 61 && Prime(293)
    ensures PrimesBelow(307) == 62 && Prime(307)
    ensures PrimesBelow(311) == 63 && Prime(311)
  {
    hide Prime, PrimesBelow;
    FirstSix();
    PrimesFrom17();
    PrimesFrom53();
    PrimesFrom89();
    PrimesFrom131();
    PrimesFrom173();
    PrimesFrom223();
    PrimesFrom263();
  }
}
