/** Where the constants of the secure hash algorithm come from: the first 32 bits of the
    fractional parts of the cube roots of the first 64 primes, and of the square roots of
    the first eight (sections 4.2.2 and 5.3.3 of FIPS 180-4). */
module Sha256Constants {
  import opened Arithmetic
  import opened Sha256Spec

  const TWO32: nat := 0x1_0000_0000
  const TWO64: nat := 0x1_0000_0000_0000_0000
  const TWO96: nat := 0x1_0000_0000_0000_0000_0000_0000

  ghost predicate Prime(n: nat) {
    n >= 2 && forall d: nat :: 2 <= d < n ==> n % d != 0
  }

  /** The first 64 primes, counted from 0. */
  function PrimeAt(t: nat): nat
    requires t < 64
  {
    if t < 8 then [2, 3, 5, 7, 11, 13, 17, 19][t]
    else if t < 16 then [23, 29, 31, 37, 41, 43, 47, 53][t - 8]
    else if t < 24 then [59, 61, 67, 71, 73, 79, 83, 89][t - 16]
    else if t < 32 then [97, 101, 103, 107, 109, 113, 127, 131][t - 24]
    else if t < 40 then [137, 139, 149, 151, 157, 163, 167, 173][t - 32]
    else if t < 48 then [179, 181, 191, 193, 197, 199, 211, 223][t - 40]
    else if t < 56 then [227, 229, 233, 239, 241, 251, 257, 263][t - 48]
    else [269, 271, 277, 281, 283, 293, 307, 311][t - 56]
  }

  // -------------------------------------------------------------- the primes

  /** The prime that comes after `p`. */
  ghost predicate NextPrime(p: nat, q: nat) {
    p < q && Prime(q) && forall x: nat :: p < x < q ==> !Prime(x)
  }

  /** The least divisor of a number below 19 * 19. */
  function Least(n: nat): nat {
    if n % 2 == 0 then 2 else if n % 3 == 0 then 3 else if n % 5 == 0 then 5 else if n % 7 == 0 then 7
    else if n % 11 == 0 then 11 else if n % 13 == 0 then 13 else if n % 17 == 0 then 17 else n
  }

  lemma LeastIff(n: nat)
    requires 2 <= n < 361
    ensures Prime(n) <==> Least(n) == n
  {
    if Least(n) == n {
      forall x: nat | 2 <= x < n
        ensures n % x != 0
      {
        if n % x == 0 {
          HasLess(n, x);
        }
      }
    } else {
      assert n % Least(n) == 0 && 2 <= Least(n) < n;
    }
  }

  /** One of two factors is below the square root. */
  lemma HasLess(n: nat, x: nat)
    requires 2 <= x < n < 361 && n % x == 0
    ensures Least(n) != n
  {
    var y := n / x;
    assert n == x * y;
    assert y >= 2;
    TimesMono(2, y, x, y);
    Divides(n, x, y);
    if x < 19 {
      SmallDivisor(n, x);
    } else {
      assert y < 19 by {
        if y >= 19 {
          TimesMono(19, 19, x, y);
        }
      }
      SmallDivisor(n, y);
    }
  }

  lemma SmallDivisor(n: nat, d: nat)
    requires 2 <= d < 19 && d < n && n % d == 0
    ensures Least(n) != n
  {
    var e := if d % 2 == 0 then 2 else if d % 3 == 0 then 3 else d;
    DividesMore(n, d, e);
    LeastAtMost(n, e);
  }

  lemma DividesMore(n: nat, d: nat, e: nat)
    requires d > 0 && e > 0 && n % d == 0 && d % e == 0
    ensures n % e == 0
  {
    var q, r := n / d, d / e;
    assert n == d * q && d == e * r;
    assert n == (r * q) * e;
    ModUnique(n, e, r * q, 0);
  }

  lemma LeastAtMost(n: nat, e: nat)
    requires e in {2, 3, 5, 7, 11, 13, 17} && n % e == 0
    ensures Least(n) <= e
  {
  }

  /** None of the numbers between, of which there are thirteen at most. */
  predicate NoneLeast(p: nat, q: nat) {
    && q <= p + 14
    && (p + 1 < q ==> Least(p + 1) != p + 1)
    && (p + 2 < q ==> Least(p + 2) != p + 2)
    && (p + 3 < q ==> Least(p + 3) != p + 3)
    && (p + 4 < q ==> Least(p + 4) != p + 4)
    && (p + 5 < q ==> Least(p + 5) != p + 5)
    && (p + 6 < q ==> Least(p + 6) != p + 6)
    && (p + 7 < q ==> Least(p + 7) != p + 7)
    && (p + 8 < q ==> Least(p + 8) != p + 8)
    && (p + 9 < q ==> Least(p + 9) != p + 9)
    && (p + 10 < q ==> Least(p + 10) != p + 10)
    && (p + 11 < q ==> Least(p + 11) != p + 11)
    && (p + 12 < q ==> Least(p + 12) != p + 12)
    && (p + 13 < q ==> Least(p + 13) != p + 13)
  }

  lemma Next(p: nat, q: nat)
    requires 2 <= p < q < 361 && Least(q) == q && NoneLeast(p, q)
    ensures NextPrime(p, q)
  {
    hide Least, Prime;
    LeastIff(q);
    forall x: nat | p < x < q
      ensures !Prime(x)
    {
      LeastIff(x);
    }
  }

  lemma Primes0To8(t: nat)
    requires 0 <= t <= 8
    ensures NextPrime(PrimeAt(t), PrimeAt(t + 1))
  {
    hide NextPrime;
    if t == 0 {
      Next(2, 3);
    } else if t == 1 {
      Next(3, 5);
    } else if t == 2 {
      Next(5, 7);
    } else if t == 3 {
      Next(7, 11);
    } else if t == 4 {
      Next(11, 13);
    } else if t == 5 {
      Next(13, 17);
    } else if t == 6 {
      Next(17, 19);
    } else if t == 7 {
      Next(19, 23);
    } else {
      Next(23, 29);
    }
  }

  lemma Primes9To17(t: nat)
    requires 9 <= t <= 17
    ensures NextPrime(PrimeAt(t), PrimeAt(t + 1))
  {
    hide NextPrime;
    if t == 9 {
      Next(29, 31);
    } else if t == 10 {
      Next(31, 37);
    } else if t == 11 {
      Next(37, 41);
    } else if t == 12 {
      Next(41, 43);
    } else if t == 13 {
      Next(43, 47);
    } else if t == 14 {
      Next(47, 53);
    } else if t == 15 {
      Next(53, 59);
    } else if t == 16 {
      Next(59, 61);
    } else {
      Next(61, 67);
    }
  }

  lemma Primes18To26(t: nat)
    requires 18 <= t <= 26
    ensures NextPrime(PrimeAt(t), PrimeAt(t + 1))
  {
    hide NextPrime;
    if t == 18 {
      Next(67, 71);
    } else if t == 19 {
      Next(71, 73);
    } else if t == 20 {
      Next(73, 79);
    } else if t == 21 {
      Next(79, 83);
    } else if t == 22 {
      Next(83, 89);
    } else if t == 23 {
      Next(89, 97);
    } else if t == 24 {
      Next(97, 101);
    } else if t == 25 {
      Next(101, 103);
    } else {
      Next(103, 107);
    }
  }

  lemma Primes27To35(t: nat)
    requires 27 <= t <= 35
    ensures NextPrime(PrimeAt(t), PrimeAt(t + 1))
  {
    hide NextPrime;
    if t == 27 {
      Next(107, 109);
    } else if t == 28 {
      Next(109, 113);
    } else if t == 29 {
      Next(113, 127);
    } else if t == 30 {
      Next(127, 131);
    } else if t == 31 {
      Next(131, 137);
    } else if t == 32 {
      Next(137, 139);
    } else if t == 33 {
      Next(139, 149);
    } else if t == 34 {
      Next(149, 151);
    } else {
      Next(151, 157);
    }
  }

  lemma Primes36To44(t: nat)
    requires 36 <= t <= 44
    ensures NextPrime(PrimeAt(t), PrimeAt(t + 1))
  {
    hide NextPrime;
    if t == 36 {
      Next(157, 163);
    } else if t == 37 {
      Next(163, 167);
    } else if t == 38 {
      Next(167, 173);
    } else if t == 39 {
      Next(173, 179);
    } else if t == 40 {
      Next(179, 181);
    } else if t == 41 {
      Next(181, 191);
    } else if t == 42 {
      Next(191, 193);
    } else if t == 43 {
      Next(193, 197);
    } else {
      Next(197, 199);
    }
  }

  lemma Primes45To53(t: nat)
    requires 45 <= t <= 53
    ensures NextPrime(PrimeAt(t), PrimeAt(t + 1))
  {
    hide NextPrime;
    if t == 45 {
      Next(199, 211);
    } else if t == 46 {
      Next(211, 223);
    } else if t == 47 {
      Next(223, 227);
    } else if t == 48 {
      Next(227, 229);
    } else if t == 49 {
      Next(229, 233);
    } else if t == 50 {
      Next(233, 239);
    } else if t == 51 {
      Next(239, 241);
    } else if t == 52 {
      Next(241, 251);
    } else {
      Next(251, 257);
    }
  }

  lemma Primes54To62(t: nat)
    requires 54 <= t <= 62
    ensures NextPrime(PrimeAt(t), PrimeAt(t + 1))
  {
    hide NextPrime;
    if t == 54 {
      Next(257, 263);
    } else if t == 55 {
      Next(263, 269);
    } else if t == 56 {
      Next(269, 271);
    } else if t == 57 {
      Next(271, 277);
    } else if t == 58 {
      Next(277, 281);
    } else if t == 59 {
      Next(281, 283);
    } else if t == 60 {
      Next(283, 293);
    } else if t == 61 {
      Next(293, 307);
    } else {
      Next(307, 311);
    }
  }

  /** The table begins with the first prime and goes on with the next. */
  lemma FirstPrimes()
    ensures Prime(PrimeAt(0)) && forall x: nat :: x < PrimeAt(0) ==> !Prime(x)
    ensures forall t: nat :: t < 63 ==> NextPrime(PrimeAt(t), PrimeAt(t + 1))
  {
    forall t: nat | t < 63
      ensures NextPrime(PrimeAt(t), PrimeAt(t + 1))
    {
      hide NextPrime, Prime;
      if t < 9 {
        Primes0To8(t);
      } else if t < 18 {
        Primes9To17(t);
      } else if t < 27 {
        Primes18To26(t);
      } else if t < 36 {
        Primes27To35(t);
      } else if t < 45 {
        Primes36To44(t);
      } else if t < 54 {
        Primes45To53(t);
      } else {
        Primes54To62(t);
      }
    }
  }

  // ------------------------------------------------------------ the constants

  /** `c` is the cube root of `p` in units of 2^-32, cut off. */
  predicate IsCubeRoot(p: nat, c: nat) {
    c * c * c <= p * TWO96 < (c + 1) * (c + 1) * (c + 1)
  }

  predicate IsSquareRoot(p: nat, c: nat) {
    c * c <= p * TWO64 < (c + 1) * (c + 1)
  }

  /** The first 32 bits of its fractional part. */
  predicate IsFraction(w: Word, c: nat) {
    w.bits as nat == c % TWO32
  }

  ghost predicate FromCubeRoot(w: Word, p: nat) {
    exists c: nat :: IsCubeRoot(p, c) && IsFraction(w, c)
  }

  ghost predicate FromSquareRoot(w: Word, p: nat) {
    exists c: nat :: IsSquareRoot(p, c) && IsFraction(w, c)
  }

  lemma Cube(w: Word, p: nat, c: nat)
    requires IsCubeRoot(p, c) && IsFraction(w, c)
    ensures FromCubeRoot(w, p)
  {
  }

  lemma Square(w: Word, p: nat, c: nat)
    requires IsSquareRoot(p, c) && IsFraction(w, c)
    ensures FromSquareRoot(w, p)
  {
  }

  lemma Constants0To7(t: nat)
    requires 0 <= t <= 7
    ensures FromCubeRoot(K(t), PrimeAt(t))
  {
    hide FromCubeRoot;
    if t == 0 {
      Cube(Word(0x428a2f98), 2, 0x1428a2f98);
    } else if t == 1 {
      Cube(Word(0x71374491), 3, 0x171374491);
    } else if t == 2 {
      Cube(Word(0xb5c0fbcf), 5, 0x1b5c0fbcf);
    } else if t == 3 {
      Cube(Word(0xe9b5dba5), 7, 0x1e9b5dba5);
    } else if t == 4 {
      Cube(Word(0x3956c25b), 11, 0x23956c25b);
    } else if t == 5 {
      Cube(Word(0x59f111f1), 13, 0x259f111f1);
    } else if t == 6 {
      Cube(Word(0x923f82a4), 17, 0x2923f82a4);
    } else {
      Cube(Word(0xab1c5ed5), 19, 0x2ab1c5ed5);
    }
  }

  lemma Constants8To15(t: nat)
    requires 8 <= t <= 15
    ensures FromCubeRoot(K(t), PrimeAt(t))
  {
    hide FromCubeRoot;
    if t == 8 {
      Cube(Word(0xd807aa98), 23, 0x2d807aa98);
    } else if t == 9 {
      Cube(Word(0x12835b01), 29, 0x312835b01);
    } else if t == 10 {
      Cube(Word(0x243185be), 31, 0x3243185be);
    } else if t == 11 {
      Cube(Word(0x550c7dc3), 37, 0x3550c7dc3);
    } else if t == 12 {
      Cube(Word(0x72be5d74), 41, 0x372be5d74);
    } else if t == 13 {
      Cube(Word(0x80deb1fe), 43, 0x380deb1fe);
    } else if t == 14 {
      Cube(Word(0x9bdc06a7), 47, 0x39bdc06a7);
    } else {
      Cube(Word(0xc19bf174), 53, 0x3c19bf174);
    }
  }

  lemma Constants16To23(t: nat)
    requires 16 <= t <= 23
    ensures FromCubeRoot(K(t), PrimeAt(t))
  {
    hide FromCubeRoot;
    if t == 16 {
      Cube(Word(0xe49b69c1), 59, 0x3e49b69c1);
    } else if t == 17 {
      Cube(Word(0xefbe4786), 61, 0x3efbe4786);
    } else if t == 18 {
      Cube(Word(0xfc19dc6), 67, 0x40fc19dc6);
    } else if t == 19 {
      Cube(Word(0x240ca1cc), 71, 0x4240ca1cc);
    } else if t == 20 {
      Cube(Word(0x2de92c6f), 73, 0x42de92c6f);
    } else if t == 21 {
      Cube(Word(0x4a7484aa), 79, 0x44a7484aa);
    } else if t == 22 {
      Cube(Word(0x5cb0a9dc), 83, 0x45cb0a9dc);
    } else {
      Cube(Word(0x76f988da), 89, 0x476f988da);
    }
  }

  lemma Constants24To31(t: nat)
    requires 24 <= t <= 31
    ensures FromCubeRoot(K(t), PrimeAt(t))
  {
    hide FromCubeRoot;
    if t == 24 {
      Cube(Word(0x983e5152), 97, 0x4983e5152);
    } else if t == 25 {
      Cube(Word(0xa831c66d), 101, 0x4a831c66d);
    } else if t == 26 {
      Cube(Word(0xb00327c8), 103, 0x4b00327c8);
    } else if t == 27 {
      Cube(Word(0xbf597fc7), 107, 0x4bf597fc7);
    } else if t == 28 {
      Cube(Word(0xc6e00bf3), 109, 0x4c6e00bf3);
    } else if t == 29 {
      Cube(Word(0xd5a79147), 113, 0x4d5a79147);
    } else if t == 30 {
      Cube(Word(0x6ca6351), 127, 0x506ca6351);
    } else {
      Cube(Word(0x14292967), 131, 0x514292967);
    }
  }

  lemma Constants32To39(t: nat)
    requires 32 <= t <= 39
    ensures FromCubeRoot(K(t), PrimeAt(t))
  {
    hide FromCubeRoot;
    if t == 32 {
      Cube(Word(0x27b70a85), 137, 0x527b70a85);
    } else if t == 33 {
      Cube(Word(0x2e1b2138), 139, 0x52e1b2138);
    } else if t == 34 {
      Cube(Word(0x4d2c6dfc), 149, 0x54d2c6dfc);
    } else if t == 35 {
      Cube(Word(0x53380d13), 151, 0x553380d13);
    } else if t == 36 {
      Cube(Word(0x650a7354), 157, 0x5650a7354);
    } else if t == 37 {
      Cube(Word(0x766a0abb), 163, 0x5766a0abb);
    } else if t == 38 {
      Cube(Word(0x81c2c92e), 167, 0x581c2c92e);
    } else {
      Cube(Word(0x92722c85), 173, 0x592722c85);
    }
  }

  lemma Constants40To47(t: nat)
    requires 40 <= t <= 47
    ensures FromCubeRoot(K(t), PrimeAt(t))
  {
    hide FromCubeRoot;
    if t == 40 {
      Cube(Word(0xa2bfe8a1), 179, 0x5a2bfe8a1);
    } else if t == 41 {
      Cube(Word(0xa81a664b), 181, 0x5a81a664b);
    } else if t == 42 {
      Cube(Word(0xc24b8b70), 191, 0x5c24b8b70);
    } else if t == 43 {
      Cube(Word(0xc76c51a3), 193, 0x5c76c51a3);
    } else if t == 44 {
      Cube(Word(0xd192e819), 197, 0x5d192e819);
    } else if t == 45 {
      Cube(Word(0xd6990624), 199, 0x5d6990624);
    } else if t == 46 {
      Cube(Word(0xf40e3585), 211, 0x5f40e3585);
    } else {
      Cube(Word(0x106aa070), 223, 0x6106aa070);
    }
  }

  lemma Constants48To55(t: nat)
    requires 48 <= t <= 55
    ensures FromCubeRoot(K(t), PrimeAt(t))
  {
    hide FromCubeRoot;
    if t == 48 {
      Cube(Word(0x19a4c116), 227, 0x619a4c116);
    } else if t == 49 {
      Cube(Word(0x1e376c08), 229, 0x61e376c08);
    } else if t == 50 {
      Cube(Word(0x2748774c), 233, 0x62748774c);
    } else if t == 51 {
      Cube(Word(0x34b0bcb5), 239, 0x634b0bcb5);
    } else if t == 52 {
      Cube(Word(0x391c0cb3), 241, 0x6391c0cb3);
    } else if t == 53 {
      Cube(Word(0x4ed8aa4a), 251, 0x64ed8aa4a);
    } else if t == 54 {
      Cube(Word(0x5b9cca4f), 257, 0x65b9cca4f);
    } else {
      Cube(Word(0x682e6ff3), 263, 0x6682e6ff3);
    }
  }

  lemma Constants56To63(t: nat)
    requires 56 <= t <= 63
    ensures FromCubeRoot(K(t), PrimeAt(t))
  {
    hide FromCubeRoot;
    if t == 56 {
      Cube(Word(0x748f82ee), 269, 0x6748f82ee);
    } else if t == 57 {
      Cube(Word(0x78a5636f), 271, 0x678a5636f);
    } else if t == 58 {
      Cube(Word(0x84c87814), 277, 0x684c87814);
    } else if t == 59 {
      Cube(Word(0x8cc70208), 281, 0x68cc70208);
    } else if t == 60 {
      Cube(Word(0x90befffa), 283, 0x690befffa);
    } else if t == 61 {
      Cube(Word(0xa4506ceb), 293, 0x6a4506ceb);
    } else if t == 62 {
      Cube(Word(0xbef9a3f7), 307, 0x6bef9a3f7);
    } else {
      Cube(Word(0xc67178f2), 311, 0x6c67178f2);
    }
  }

  /** Each constant of a round comes from the cube root of its prime. */
  lemma RoundConstants(t: nat)
    requires t < 64
    ensures FromCubeRoot(K(t), PrimeAt(t))
  {
    hide FromCubeRoot, K;
    if t < 8 {
      Constants0To7(t);
    } else if t < 16 {
      Constants8To15(t);
    } else if t < 24 {
      Constants16To23(t);
    } else if t < 32 {
      Constants24To31(t);
    } else if t < 40 {
      Constants32To39(t);
    } else if t < 48 {
      Constants40To47(t);
    } else if t < 56 {
      Constants48To55(t);
    } else {
      Constants56To63(t);
    }
  }

  /** The initial value comes from the square roots of the first eight. */
  lemma InitialValue()
    ensures var s := IV();
            && FromSquareRoot(s.a, 2) && FromSquareRoot(s.b, 3) && FromSquareRoot(s.c, 5) && FromSquareRoot(s.d, 7)
            && FromSquareRoot(s.e, 11) && FromSquareRoot(s.f, 13) && FromSquareRoot(s.g, 17) && FromSquareRoot(s.h, 19)
    ensures PrimeAt(0) == 2 && PrimeAt(1) == 3 && PrimeAt(2) == 5 && PrimeAt(3) == 7
    ensures PrimeAt(4) == 11 && PrimeAt(5) == 13 && PrimeAt(6) == 17 && PrimeAt(7) == 19
  {
    hide FromSquareRoot;
    Square(Word(0x6a09e667), 2, 0x16a09e667);
    Square(Word(0xbb67ae85), 3, 0x1bb67ae85);
    Square(Word(0x3c6ef372), 5, 0x23c6ef372);
    Square(Word(0xa54ff53a), 7, 0x2a54ff53a);
    Square(Word(0x510e527f), 11, 0x3510e527f);
    Square(Word(0x9b05688c), 13, 0x39b05688c);
    Square(Word(0x1f83d9ab), 17, 0x41f83d9ab);
    Square(Word(0x5be0cd19), 19, 0x45be0cd19);
  }
}
