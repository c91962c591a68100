/**
 SHA-256 held against FIPS 180-4 itself: its constants are the fractional bits of roots of primes
 (sections 4.2.2 and 5.3.3).
 */
module Sha256Constants {
  import opened Collections
  import opened Sha256
  import opened Sieve

  // ---- the first primes --------------------------------------------------------------------------

  /** A prime up to 17 is a proper divisor of `n`. */
  predicate Sieved(n: int) {
    || (n > 2 && n % 2 == 0) || (n > 3 && n % 3 == 0) || (n > 5 && n % 5 == 0) || (n > 7 && n % 7 == 0)
    || (n > 11 && n % 11 == 0) || (n > 13 && n % 13 == 0) || (n > 17 && n % 17 == 0)
  }

  /** Below 19 squared, that decides primality. */
  lemma TrialDivision(n: int)
    requires 2 <= n < 361
    ensures IsPrime(n) <==> !Sieved(n)
  {
    if !IsPrime(n) {
      var p := CompositeIsHit(n);
      hide IsPrime;
      SquareFits(n, p);
      SmallFactor(n, p);
    } else if Sieved(n) {
      var d := if n > 2 && n % 2 == 0 then 2 else if n > 3 && n % 3 == 0 then 3 else if n > 5 && n % 5 == 0 then 5
               else if n > 7 && n % 7 == 0 then 7 else if n > 11 && n % 11 == 0 then 11
               else if n > 13 && n % 13 == 0 then 13 else 17;
      SievedBy(n, d);
    }
  }

  lemma SievedBy(n: int, d: int)
    requires 2 <= d < n && n % d == 0
    ensures !IsPrime(n)
  {
    assert Divides(d, n);
  }

  lemma SquareFits(n: int, p: int)
    requires Hits(p, n) && n < 361
    ensures p <= 18 && p < n
  {
    assert (p - 19) * (p + 19) == p * p - 361;
    assert (p - 1) * p == p * p - p;
  }

  lemma SmallFactor(n: int, p: int)
    requires 2 <= p <= 18 && p < n && n % p == 0
    ensures Sieved(n)
  {
    if p % 2 == 0 { Factor(n, p, 2); } else if p % 3 == 0 { Factor(n, p, 3); } else if p % 5 == 0 { Factor(n, p, 5); }
  }

  lemma Factor(n: int, p: int, d: int)
    requires p > 0 && d > 0 && n % p == 0 && p % d == 0
    ensures n % d == 0
  {
    var a, b := n / p, p / d;
    assert n == a * p && p == b * d;
    assert a * (b * d) == (a * b) * d;
    ModUnique(d, n, a * b, 0);
  }

  lemma Composite(n: int, d: int)
    requires 2 <= d < n && n % d == 0
    ensures CountPrimes(2, n + 1) == CountPrimes(2, n)
  {
    SievedBy(n, d);
  }

  /** An even number follows `p`, and the two numbers from an odd composite on are no primes. */
  lemma Even(p: int)
    requires p > 2 && p % 2 == 1
    ensures CountPrimes(2, p + 2) == CountPrimes(2, p + 1)
  {
    Composite(p + 1, 2);
  }

  lemma Pair(n: int, d: int)
    requires n % 2 == 1 && 2 <= d < n && n % d == 0
    ensures CountPrimes(2, n + 2) == CountPrimes(2, n)
  {
    Composite(n, d);
    Composite(n + 1, 2);
  }

  function Prime(i: nat): int
    requires i < 64
  {
    var p: seq<seq<int>> := [
      [2, 3, 5, 7, 11, 13, 17, 19],
      [23, 29, 31, 37, 41, 43, 47, 53],
      [59, 61, 67, 71, 73, 79, 83, 89],
      [97, 101, 103, 107, 109, 113, 127, 131],
      [137, 139, 149, 151, 157, 163, 167, 173],
      [179, 181, 191, 193, 197, 199, 211, 223],
      [227, 229, 233, 239, 241, 251, 257, 263],
      [269, 271, 277, 281, 283, 293, 307, 311]];
    p[i / 8][i % 8]
  }

  /** `Prime(i)` and the next entry are neighbouring primes. */
  ghost predicate NextToIt(i: nat)
    requires i < 63
  {
    IsPrime(Prime(i + 1)) && CountPrimes(2, Prime(i + 1)) == CountPrimes(2, Prime(i) + 1)
  }

  lemma PrimeRow0(i: nat)
    requires 0 <= i < 8
    ensures NextToIt(i)
  {
    hide IsPrime, CountPrimes;
    if i == 0 { TrialDivision(3); }
    else if i == 1 { Even(3); TrialDivision(5); }
    else if i == 2 { Even(5); TrialDivision(7); }
    else if i == 3 { Even(7); Pair(9, 3); TrialDivision(11); }
    else if i == 4 { Even(11); TrialDivision(13); }
    else if i == 5 { Even(13); Pair(15, 3); TrialDivision(17); }
    else if i == 6 { Even(17); TrialDivision(19); }
    else if i == 7 { Even(19); Pair(21, 3); TrialDivision(23); }
  }

  lemma PrimeRow1(i: nat)
    requires 8 <= i < 16
    ensures NextToIt(i)
  {
    hide IsPrime, CountPrimes;
    if i == 8 { Even(23); Pair(25, 5); Pair(27, 3); TrialDivision(29); }
    else if i == 9 { Even(29); TrialDivision(31); }
    else if i == 10 { Even(31); Pair(33, 3); Pair(35, 5); TrialDivision(37); }
    else if i == 11 { Even(37); Pair(39, 3); TrialDivision(41); }
    else if i == 12 { Even(41); TrialDivision(43); }
    else if i == 13 { Even(43); Pair(45, 3); TrialDivision(47); }
    else if i == 14 { Even(47); Pair(49, 7); Pair(51, 3); TrialDivision(53); }
    else if i == 15 { Even(53); Pair(55, 5); Pair(57, 3); TrialDivision(59); }
  }

  lemma PrimeRow2(i: nat)
    requires 16 <= i < 24
    ensures NextToIt(i)
  {
    hide IsPrime, CountPrimes;
    if i == 16 { Even(59); TrialDivision(61); }
    else if i == 17 { Even(61); Pair(63, 3); Pair(65, 5); TrialDivision(67); }
    else if i == 18 { Even(67); Pair(69, 3); TrialDivision(71); }
    else if i == 19 { Even(71); TrialDivision(73); }
    else if i == 20 { Even(73); Pair(75, 3); Pair(77, 7); TrialDivision(79); }
    else if i == 21 { Even(79); Pair(81, 3); TrialDivision(83); }
    else if i == 22 { Even(83); Pair(85, 5); Pair(87, 3); TrialDivision(89); }
    else if i == 23 { Even(89); Pair(91, 7); Pair(93, 3); Pair(95, 5); TrialDivision(97); }
  }

  lemma PrimeRow3(i: nat)
    requires 24 <= i < 32
    ensures NextToIt(i)
  {
    hide IsPrime, CountPrimes;
    if i == 24 { Even(97); Pair(99, 3); TrialDivision(101); }
    else if i == 25 { Even(101); TrialDivision(103); }
    else if i == 26 { Even(103); Pair(105, 3); TrialDivision(107); }
    else if i == 27 { Even(107); TrialDivision(109); }
    else if i == 28 { Even(109); Pair(111, 3); TrialDivision(113); }
    else if i == 29 { Even(113); Pair(115, 5); Pair(117, 3); Pair(119, 7);
      Pair(121, 11); Pair(123, 3); Pair(125, 5); TrialDivision(127); }
    else if i == 30 { Even(127); Pair(129, 3); TrialDivision(131); }
    else if i == 31 { Even(131); Pair(133, 7); Pair(135, 3); TrialDivision(137); }
  }

  lemma PrimeRow4(i: nat)
    requires 32 <= i < 40
    ensures NextToIt(i)
  {
    hide IsPrime, CountPrimes;
    if i == 32 { Even(137); TrialDivision(139); }
    else if i == 33 { Even(139); Pair(141, 3); Pair(143, 11); Pair(145, 5); Pair(147, 3); TrialDivision(149); }
    else if i == 34 { Even(149); TrialDivision(151); }
    else if i == 35 { Even(151); Pair(153, 3); Pair(155, 5); TrialDivision(157); }
    else if i == 36 { Even(157); Pair(159, 3); Pair(161, 7); TrialDivision(163); }
    else if i == 37 { Even(163); Pair(165, 3); TrialDivision(167); }
    else if i == 38 { Even(167); Pair(169, 13); Pair(171, 3); TrialDivision(173); }
    else if i == 39 { Even(173); Pair(175, 5); Pair(177, 3); TrialDivision(179); }
  }

  lemma PrimeRow5(i: nat)
    requires 40 <= i < 48
    ensures NextToIt(i)
  {
    hide IsPrime, CountPrimes;
    if i == 40 { Even(179); TrialDivision(181); }
    else if i == 41 { Even(181); Pair(183, 3); Pair(185, 5); Pair(187, 11); Pair(189, 3); TrialDivision(191); }
    else if i == 42 { Even(191); TrialDivision(193); }
    else if i == 43 { Even(193); Pair(195, 3); TrialDivision(197); }
    else if i == 44 { Even(197); TrialDivision(199); }
    else if i == 45 { Even(199); Pair(201, 3); Pair(203, 7); Pair(205, 5);
      Pair(207, 3); Pair(209, 11); TrialDivision(211); }
    else if i == 46 { Even(211); Pair(213, 3); Pair(215, 5); Pair(217, 7);
      Pair(219, 3); Pair(221, 13); TrialDivision(223); }
    else if i == 47 { Even(223); Pair(225, 3); TrialDivision(227); }
  }

  lemma PrimeRow6(i: nat)
    requires 48 <= i < 56
    ensures NextToIt(i)
  {
    hide IsPrime, CountPrimes;
    if i == 48 { Even(227); TrialDivision(229); }
    else if i == 49 { Even(229); Pair(231, 3); TrialDivision(233); }
    else if i == 50 { Even(233); Pair(235, 5); Pair(237, 3); TrialDivision(239); }
    else if i == 51 { Even(239); TrialDivision(241); }
    else if i == 52 { Even(241); Pair(243, 3); Pair(245, 5); Pair(247, 13); Pair(249, 3); TrialDivision(251); }
    else if i == 53 { Even(251); Pair(253, 11); Pair(255, 3); TrialDivision(257); }
    else if i == 54 { Even(257); Pair(259, 7); Pair(261, 3); TrialDivision(263); }
    else if i == 55 { Even(263); Pair(265, 5); Pair(267, 3); TrialDivision(269); }
  }

  lemma PrimeRow7(i: nat)
    requires 56 <= i < 63
    ensures NextToIt(i)
  {
    hide IsPrime, CountPrimes;
    if i == 56 { Even(269); TrialDivision(271); }
    else if i == 57 { Even(271); Pair(273, 3); Pair(275, 5); TrialDivision(277); }
    else if i == 58 { Even(277); Pair(279, 3); TrialDivision(281); }
    else if i == 59 { Even(281); TrialDivision(283); }
    else if i == 60 { Even(283); Pair(285, 3); Pair(287, 7); Pair(289, 17); Pair(291, 3); TrialDivision(293); }
    else if i == 61 { Even(293); Pair(295, 5); Pair(297, 3); Pair(299, 13);
      Pair(301, 7); Pair(303, 3); Pair(305, 5); TrialDivision(307); }
    else if i == 62 { Even(307); Pair(309, 3); TrialDivision(311); }
  }

  /** `Prime(i)` is the prime with exactly `i` primes below it. */
  lemma {:induction false} PrimesAre(i: nat)
    requires i < 64
    ensures IsPrime(Prime(i)) && CountPrimes(2, Prime(i)) == i
  {
    if i == 0 {
      TrialDivision(2);
    } else {
      PrimesAre(i - 1);
      hide IsPrime, Prime;
      var j := i - 1;
      if j < 8 { PrimeRow0(j); } else if j < 16 { PrimeRow1(j); } else if j < 24 { PrimeRow2(j); }
      else if j < 32 { PrimeRow3(j); } else if j < 40 { PrimeRow4(j); } else if j < 48 { PrimeRow5(j); }
      else if j < 56 { PrimeRow6(j); } else { PrimeRow7(j); }
      assert CountPrimes(2, Prime(j) + 1) == CountPrimes(2, Prime(j)) + 1 by { PrimeFacts(Prime(j)); }
    }
  }

  lemma PrimeFacts(p: int)
    requires IsPrime(p)
    ensures p >= 2
  {
  }

  // ---- sections 4.2.2 and 5.3.3: roots of primes -------------------------------------------------

  const TWO32: int := 0x1_0000_0000

  /** `k` is the first 32 bits of the fraction of the cube root of `p`, whose integer part is `q`. */
  predicate CubeRootBits(p: int, q: int, k: int) {
    var v := TWO32 * q + k;
    && 0 <= k < TWO32 && v * v * v <= p * TWO32 * TWO32 * TWO32 < (v + 1) * (v + 1) * (v + 1)
  }

  ghost predicate CubeRootFraction(p: int, k: int) {
    exists q :: CubeRootBits(p, q, k)
  }

  predicate SquareRootBits(p: int, q: int, h: int) {
    var v := TWO32 * q + h;
    0 <= h < TWO32 && v * v <= p * TWO32 * TWO32 < (v + 1) * (v + 1)
  }

  ghost predicate SquareRootFraction(p: int, h: int) {
    exists q :: SquareRootBits(p, q, h)
  }

  lemma Constants0(i: nat)
    requires 0 <= i < 8
    ensures CubeRootFraction(Prime(i), RoundConstant(i) as int)
  {
    if i == 0 { assert RoundConstant(0) as int == 0x428a2f98 && CubeRootBits(2, 1, 0x428a2f98); }
    else if i == 1 { assert RoundConstant(1) as int == 0x71374491 && CubeRootBits(3, 1, 0x71374491); }
    else if i == 2 { assert RoundConstant(2) as int == 0xb5c0fbcf && CubeRootBits(5, 1, 0xb5c0fbcf); }
    else if i == 3 { assert RoundConstant(3) as int == 0xe9b5dba5 && CubeRootBits(7, 1, 0xe9b5dba5); }
    else if i == 4 { assert RoundConstant(4) as int == 0x3956c25b && CubeRootBits(11, 2, 0x3956c25b); }
    else if i == 5 { assert RoundConstant(5) as int == 0x59f111f1 && CubeRootBits(13, 2, 0x59f111f1); }
    else if i == 6 { assert RoundConstant(6) as int == 0x923f82a4 && CubeRootBits(17, 2, 0x923f82a4); }
    else if i == 7 { assert RoundConstant(7) as int == 0xab1c5ed5 && CubeRootBits(19, 2, 0xab1c5ed5); }
  }

  lemma Constants1(i: nat)
    requires 8 <= i < 16
    ensures CubeRootFraction(Prime(i), RoundConstant(i) as int)
  {
    if i == 8 { assert RoundConstant(8) as int == 0xd807aa98 && CubeRootBits(23, 2, 0xd807aa98); }
    else if i == 9 { assert RoundConstant(9) as int == 0x12835b01 && CubeRootBits(29, 3, 0x12835b01); }
    else if i == 10 { assert RoundConstant(10) as int == 0x243185be && CubeRootBits(31, 3, 0x243185be); }
    else if i == 11 { assert RoundConstant(11) as int == 0x550c7dc3 && CubeRootBits(37, 3, 0x550c7dc3); }
    else if i == 12 { assert RoundConstant(12) as int == 0x72be5d74 && CubeRootBits(41, 3, 0x72be5d74); }
    else if i == 13 { assert RoundConstant(13) as int == 0x80deb1fe && CubeRootBits(43, 3, 0x80deb1fe); }
    else if i == 14 { assert RoundConstant(14) as int == 0x9bdc06a7 && CubeRootBits(47, 3, 0x9bdc06a7); }
    else if i == 15 { assert RoundConstant(15) as int == 0xc19bf174 && CubeRootBits(53, 3, 0xc19bf174); }
  }

  lemma Constants2(i: nat)
    requires 16 <= i < 24
    ensures CubeRootFraction(Prime(i), RoundConstant(i) as int)
  {
    if i == 16 { assert RoundConstant(16) as int == 0xe49b69c1 && CubeRootBits(59, 3, 0xe49b69c1); }
    else if i == 17 { assert RoundConstant(17) as int == 0xefbe4786 && CubeRootBits(61, 3, 0xefbe4786); }
    else if i == 18 { assert RoundConstant(18) as int == 0x0fc19dc6 && CubeRootBits(67, 4, 0x0fc19dc6); }
    else if i == 19 { assert RoundConstant(19) as int == 0x240ca1cc && CubeRootBits(71, 4, 0x240ca1cc); }
    else if i == 20 { assert RoundConstant(20) as int == 0x2de92c6f && CubeRootBits(73, 4, 0x2de92c6f); }
    else if i == 21 { assert RoundConstant(21) as int == 0x4a7484aa && CubeRootBits(79, 4, 0x4a7484aa); }
    else if i == 22 { assert RoundConstant(22) as int == 0x5cb0a9dc && CubeRootBits(83, 4, 0x5cb0a9dc); }
    else if i == 23 { assert RoundConstant(23) as int == 0x76f988da && CubeRootBits(89, 4, 0x76f988da); }
  }

  lemma Constants3(i: nat)
    requires 24 <= i < 32
    ensures CubeRootFraction(Prime(i), RoundConstant(i) as int)
  {
    if i == 24 { assert RoundConstant(24) as int == 0x983e5152 && CubeRootBits(97, 4, 0x983e5152); }
    else if i == 25 { assert RoundConstant(25) as int == 0xa831c66d && CubeRootBits(101, 4, 0xa831c66d); }
    else if i == 26 { assert RoundConstant(26) as int == 0xb00327c8 && CubeRootBits(103, 4, 0xb00327c8); }
    else if i == 27 { assert RoundConstant(27) as int == 0xbf597fc7 && CubeRootBits(107, 4, 0xbf597fc7); }
    else if i == 28 { assert RoundConstant(28) as int == 0xc6e00bf3 && CubeRootBits(109, 4, 0xc6e00bf3); }
    else if i == 29 { assert RoundConstant(29) as int == 0xd5a79147 && CubeRootBits(113, 4, 0xd5a79147); }
    else if i == 30 { assert RoundConstant(30) as int == 0x06ca6351 && CubeRootBits(127, 5, 0x06ca6351); }
    else if i == 31 { assert RoundConstant(31) as int == 0x14292967 && CubeRootBits(131, 5, 0x14292967); }
  }

  lemma Constants4(i: nat)
    requires 32 <= i < 40
    ensures CubeRootFraction(Prime(i), RoundConstant(i) as int)
  {
    if i == 32 { assert RoundConstant(32) as int == 0x27b70a85 && CubeRootBits(137, 5, 0x27b70a85); }
    else if i == 33 { assert RoundConstant(33) as int == 0x2e1b2138 && CubeRootBits(139, 5, 0x2e1b2138); }
    else if i == 34 { assert RoundConstant(34) as int == 0x4d2c6dfc && CubeRootBits(149, 5, 0x4d2c6dfc); }
    else if i == 35 { assert RoundConstant(35) as int == 0x53380d13 && CubeRootBits(151, 5, 0x53380d13); }
    else if i == 36 { assert RoundConstant(36) as int == 0x650a7354 && CubeRootBits(157, 5, 0x650a7354); }
    else if i == 37 { assert RoundConstant(37) as int == 0x766a0abb && CubeRootBits(163, 5, 0x766a0abb); }
    else if i == 38 { assert RoundConstant(38) as int == 0x81c2c92e && CubeRootBits(167, 5, 0x81c2c92e); }
    else if i == 39 { assert RoundConstant(39) as int == 0x92722c85 && CubeRootBits(173, 5, 0x92722c85); }
  }

  lemma Constants5(i: nat)
    requires 40 <= i < 48
    ensures CubeRootFraction(Prime(i), RoundConstant(i) as int)
  {
    if i == 40 { assert RoundConstant(40) as int == 0xa2bfe8a1 && CubeRootBits(179, 5, 0xa2bfe8a1); }
    else if i == 41 { assert RoundConstant(41) as int == 0xa81a664b && CubeRootBits(181, 5, 0xa81a664b); }
    else if i == 42 { assert RoundConstant(42) as int == 0xc24b8b70 && CubeRootBits(191, 5, 0xc24b8b70); }
    else if i == 43 { assert RoundConstant(43) as int == 0xc76c51a3 && CubeRootBits(193, 5, 0xc76c51a3); }
    else if i == 44 { assert RoundConstant(44) as int == 0xd192e819 && CubeRootBits(197, 5, 0xd192e819); }
    else if i == 45 { assert RoundConstant(45) as int == 0xd6990624 && CubeRootBits(199, 5, 0xd6990624); }
    else if i == 46 { assert RoundConstant(46) as int == 0xf40e3585 && CubeRootBits(211, 5, 0xf40e3585); }
    else if i == 47 { assert RoundConstant(47) as int == 0x106aa070 && CubeRootBits(223, 6, 0x106aa070); }
  }

  lemma Constants6(i: nat)
    requires 48 <= i < 56
    ensures CubeRootFraction(Prime(i), RoundConstant(i) as int)
  {
    if i == 48 { assert RoundConstant(48) as int == 0x19a4c116 && CubeRootBits(227, 6, 0x19a4c116); }
    else if i == 49 { assert RoundConstant(49) as int == 0x1e376c08 && CubeRootBits(229, 6, 0x1e376c08); }
    else if i == 50 { assert RoundConstant(50) as int == 0x2748774c && CubeRootBits(233, 6, 0x2748774c); }
    else if i == 51 { assert RoundConstant(51) as int == 0x34b0bcb5 && CubeRootBits(239, 6, 0x34b0bcb5); }
    else if i == 52 { assert RoundConstant(52) as int == 0x391c0cb3 && CubeRootBits(241, 6, 0x391c0cb3); }
    else if i == 53 { assert RoundConstant(53) as int == 0x4ed8aa4a && CubeRootBits(251, 6, 0x4ed8aa4a); }
    else if i == 54 { assert RoundConstant(54) as int == 0x5b9cca4f && CubeRootBits(257, 6, 0x5b9cca4f); }
    else if i == 55 { assert RoundConstant(55) as int == 0x682e6ff3 && CubeRootBits(263, 6, 0x682e6ff3); }
  }

  lemma Constants7(i: nat)
    requires 56 <= i < 64
    ensures CubeRootFraction(Prime(i), RoundConstant(i) as int)
  {
    if i == 56 { assert RoundConstant(56) as int == 0x748f82ee && CubeRootBits(269, 6, 0x748f82ee); }
    else if i == 57 { assert RoundConstant(57) as int == 0x78a5636f && CubeRootBits(271, 6, 0x78a5636f); }
    else if i == 58 { assert RoundConstant(58) as int == 0x84c87814 && CubeRootBits(277, 6, 0x84c87814); }
    else if i == 59 { assert RoundConstant(59) as int == 0x8cc70208 && CubeRootBits(281, 6, 0x8cc70208); }
    else if i == 60 { assert RoundConstant(60) as int == 0x90befffa && CubeRootBits(283, 6, 0x90befffa); }
    else if i == 61 { assert RoundConstant(61) as int == 0xa4506ceb && CubeRootBits(293, 6, 0xa4506ceb); }
    else if i == 62 { assert RoundConstant(62) as int == 0xbef9a3f7 && CubeRootBits(307, 6, 0xbef9a3f7); }
    else if i == 63 { assert RoundConstant(63) as int == 0xc67178f2 && CubeRootBits(311, 6, 0xc67178f2); }
  }

  /** Round constant `i` is the first 32 bits of the fraction of the cube root of the prime with `i`
      primes below it. */
  lemma RoundConstantsAre(i: nat)
    requires i < 64
    ensures IsPrime(Prime(i)) && CountPrimes(2, Prime(i)) == i
    ensures CubeRootFraction(Prime(i), RoundConstant(i) as int)
  {
    PrimesAre(i);
    hide *;
    if i < 8 { Constants0(i); } else if i < 16 { Constants1(i); } else if i < 24 { Constants2(i); }
    else if i < 32 { Constants3(i); } else if i < 40 { Constants4(i); } else if i < 48 { Constants5(i); }
    else if i < 56 { Constants6(i); } else { Constants7(i); }
  }

  /** The initial hash value: the square roots of the first eight primes. */
  lemma InitialIs(i: nat)
    requires i < 8
    ensures SquareRootFraction(Prime(i), Words(Initial())[i] as int)
  {
    if i == 0 { assert Words(Initial())[0] as int == 0x6a09e667 && SquareRootBits(2, 1, 0x6a09e667); }
    else if i == 1 { assert Words(Initial())[1] as int == 0xbb67ae85 && SquareRootBits(3, 1, 0xbb67ae85); }
    else if i == 2 { assert Words(Initial())[2] as int == 0x3c6ef372 && SquareRootBits(5, 2, 0x3c6ef372); }
    else if i == 3 { assert Words(Initial())[3] as int == 0xa54ff53a && SquareRootBits(7, 2, 0xa54ff53a); }
    else if i == 4 { assert Words(Initial())[4] as int == 0x510e527f && SquareRootBits(11, 3, 0x510e527f); }
    else if i == 5 { assert Words(Initial())[5] as int == 0x9b05688c && SquareRootBits(13, 3, 0x9b05688c); }
    else if i == 6 { assert Words(Initial())[6] as int == 0x1f83d9ab && SquareRootBits(17, 4, 0x1f83d9ab); }
    else if i == 7 { assert Words(Initial())[7] as int == 0x5be0cd19 && SquareRootBits(19, 4, 0x5be0cd19); }
  }
}
