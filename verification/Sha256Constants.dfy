/** The standard's tables and word functions, said without them: the constants are roots of primes (FIPS
    180-4, sections 4.2.2 and 5.3.3), and the functions act bit by bit (4.1.2). */
module Sha256Constants {
  import opened Sha256Standard

  // ----- constants

  /** The first primes. */
  function PrimeRow(r: nat): (row: seq<nat>)
    requires r < 8
    ensures |row| == 8
  {
    match r
    case 0 => [ 2, 3, 5, 7, 11, 13, 17, 19 ]
    case 1 => [ 23, 29, 31, 37, 41, 43, 47, 53 ]
    case 2 => [ 59, 61, 67, 71, 73, 79, 83, 89 ]
    case 3 => [ 97, 101, 103, 107, 109, 113, 127, 131 ]
    case 4 => [ 137, 139, 149, 151, 157, 163, 167, 173 ]
    case 5 => [ 179, 181, 191, 193, 197, 199, 211, 223 ]
    case 6 => [ 227, 229, 233, 239, 241, 251, 257, 263 ]
    case _ => [ 269, 271, 277, 281, 283, 293, 307, 311 ]
  }

  /** The square roots of the first eight. */
  function SquareRoots(): (row: seq<nat>)
    ensures |row| == 8
  {
    [ 0x16a09e667, 0x1bb67ae85, 0x23c6ef372, 0x2a54ff53a, 0x3510e527f, 0x39b05688c, 0x41f83d9ab, 0x45be0cd19 ]
  }

  /** n is the cube root of p, cut off behind 32 binary digits, and k its fraction. */
  predicate CubeRootFraction(p: nat, n: nat, k: Word) {
    && n * n * n <= p * 0x1_0000_0000_0000_0000_0000_0000 < (n + 1) * (n + 1) * (n + 1)
    && n % 0x1_0000_0000 == k as nat
  }

  ghost predicate HasCubeRoot(p: nat, k: Word) {
    exists n: nat :: CubeRootFraction(p, n, k)
  }

  predicate SquareRootFraction(p: nat, n: nat, k: Word) {
    n * n <= p * 0x1_0000_0000_0000_0000 < (n + 1) * (n + 1) && n % 0x1_0000_0000 == k as nat
  }

  ghost predicate RowGives(r: nat)
    requires r < 8
  {
    forall i :: 0 <= i < 8 ==> HasCubeRoot(PrimeRow(r)[i], ConstantRow(r)[i])
  }

  lemma Roots0()
    ensures HasCubeRoot(2, 0x428a2f98) && HasCubeRoot(3, 0x71374491)
    ensures HasCubeRoot(5, 0xb5c0fbcf) && HasCubeRoot(7, 0xe9b5dba5)
    ensures HasCubeRoot(11, 0x3956c25b) && HasCubeRoot(13, 0x59f111f1)
    ensures HasCubeRoot(17, 0x923f82a4) && HasCubeRoot(19, 0xab1c5ed5)
  {
    assert CubeRootFraction(2, 0x1428a2f98, 0x428a2f98);
    assert CubeRootFraction(3, 0x171374491, 0x71374491);
    assert CubeRootFraction(5, 0x1b5c0fbcf, 0xb5c0fbcf);
    assert CubeRootFraction(7, 0x1e9b5dba5, 0xe9b5dba5);
    assert CubeRootFraction(11, 0x23956c25b, 0x3956c25b);
    assert CubeRootFraction(13, 0x259f111f1, 0x59f111f1);
    assert CubeRootFraction(17, 0x2923f82a4, 0x923f82a4);
    assert CubeRootFraction(19, 0x2ab1c5ed5, 0xab1c5ed5);
  }

  lemma Row0()
    ensures RowGives(0)
  {
    hide HasCubeRoot;
    Roots0();
  }

  lemma Roots1()
    ensures HasCubeRoot(23, 0xd807aa98) && HasCubeRoot(29, 0x12835b01)
    ensures HasCubeRoot(31, 0x243185be) && HasCubeRoot(37, 0x550c7dc3)
    ensures HasCubeRoot(41, 0x72be5d74) && HasCubeRoot(43, 0x80deb1fe)
    ensures HasCubeRoot(47, 0x9bdc06a7) && HasCubeRoot(53, 0xc19bf174)
  {
    assert CubeRootFraction(23, 0x2d807aa98, 0xd807aa98);
    assert CubeRootFraction(29, 0x312835b01, 0x12835b01);
    assert CubeRootFraction(31, 0x3243185be, 0x243185be);
    assert CubeRootFraction(37, 0x3550c7dc3, 0x550c7dc3);
    assert CubeRootFraction(41, 0x372be5d74, 0x72be5d74);
    assert CubeRootFraction(43, 0x380deb1fe, 0x80deb1fe);
    assert CubeRootFraction(47, 0x39bdc06a7, 0x9bdc06a7);
    assert CubeRootFraction(53, 0x3c19bf174, 0xc19bf174);
  }

  lemma Row1()
    ensures RowGives(1)
  {
    hide HasCubeRoot;
    Roots1();
  }

  lemma Roots2()
    ensures HasCubeRoot(59, 0xe49b69c1) && HasCubeRoot(61, 0xefbe4786)
    ensures HasCubeRoot(67, 0x0fc19dc6) && HasCubeRoot(71, 0x240ca1cc)
    ensures HasCubeRoot(73, 0x2de92c6f) && HasCubeRoot(79, 0x4a7484aa)
    ensures HasCubeRoot(83, 0x5cb0a9dc) && HasCubeRoot(89, 0x76f988da)
  {
    assert CubeRootFraction(59, 0x3e49b69c1, 0xe49b69c1);
    assert CubeRootFraction(61, 0x3efbe4786, 0xefbe4786);
    assert CubeRootFraction(67, 0x40fc19dc6, 0x0fc19dc6);
    assert CubeRootFraction(71, 0x4240ca1cc, 0x240ca1cc);
    assert CubeRootFraction(73, 0x42de92c6f, 0x2de92c6f);
    assert CubeRootFraction(79, 0x44a7484aa, 0x4a7484aa);
    assert CubeRootFraction(83, 0x45cb0a9dc, 0x5cb0a9dc);
    assert CubeRootFraction(89, 0x476f988da, 0x76f988da);
  }

  lemma Row2()
    ensures RowGives(2)
  {
    hide HasCubeRoot;
    Roots2();
  }

  lemma Roots3()
    ensures HasCubeRoot(97, 0x983e5152) && HasCubeRoot(101, 0xa831c66d)
    ensures HasCubeRoot(103, 0xb00327c8) && HasCubeRoot(107, 0xbf597fc7)
    ensures HasCubeRoot(109, 0xc6e00bf3) && HasCubeRoot(113, 0xd5a79147)
    ensures HasCubeRoot(127, 0x06ca6351) && HasCubeRoot(131, 0x14292967)
  {
    assert CubeRootFraction(97, 0x4983e5152, 0x983e5152);
    assert CubeRootFraction(101, 0x4a831c66d, 0xa831c66d);
    assert CubeRootFraction(103, 0x4b00327c8, 0xb00327c8);
    assert CubeRootFraction(107, 0x4bf597fc7, 0xbf597fc7);
    assert CubeRootFraction(109, 0x4c6e00bf3, 0xc6e00bf3);
    assert CubeRootFraction(113, 0x4d5a79147, 0xd5a79147);
    assert CubeRootFraction(127, 0x506ca6351, 0x06ca6351);
    assert CubeRootFraction(131, 0x514292967, 0x14292967);
  }

  lemma Row3()
    ensures RowGives(3)
  {
    hide HasCubeRoot;
    Roots3();
  }

  lemma Roots4()
    ensures HasCubeRoot(137, 0x27b70a85) && HasCubeRoot(139, 0x2e1b2138)
    ensures HasCubeRoot(149, 0x4d2c6dfc) && HasCubeRoot(151, 0x53380d13)
    ensures HasCubeRoot(157, 0x650a7354) && HasCubeRoot(163, 0x766a0abb)
    ensures HasCubeRoot(167, 0x81c2c92e) && HasCubeRoot(173, 0x92722c85)
  {
    assert CubeRootFraction(137, 0x527b70a85, 0x27b70a85);
    assert CubeRootFraction(139, 0x52e1b2138, 0x2e1b2138);
    assert CubeRootFraction(149, 0x54d2c6dfc, 0x4d2c6dfc);
    assert CubeRootFraction(151, 0x553380d13, 0x53380d13);
    assert CubeRootFraction(157, 0x5650a7354, 0x650a7354);
    assert CubeRootFraction(163, 0x5766a0abb, 0x766a0abb);
    assert CubeRootFraction(167, 0x581c2c92e, 0x81c2c92e);
    assert CubeRootFraction(173, 0x592722c85, 0x92722c85);
  }

  lemma Row4()
    ensures RowGives(4)
  {
    hide HasCubeRoot;
    Roots4();
  }

  lemma Roots5()
    ensures HasCubeRoot(179, 0xa2bfe8a1) && HasCubeRoot(181, 0xa81a664b)
    ensures HasCubeRoot(191, 0xc24b8b70) && HasCubeRoot(193, 0xc76c51a3)
    ensures HasCubeRoot(197, 0xd192e819) && HasCubeRoot(199, 0xd6990624)
    ensures HasCubeRoot(211, 0xf40e3585) && HasCubeRoot(223, 0x106aa070)
  {
    assert CubeRootFraction(179, 0x5a2bfe8a1, 0xa2bfe8a1);
    assert CubeRootFraction(181, 0x5a81a664b, 0xa81a664b);
    assert CubeRootFraction(191, 0x5c24b8b70, 0xc24b8b70);
    assert CubeRootFraction(193, 0x5c76c51a3, 0xc76c51a3);
    assert CubeRootFraction(197, 0x5d192e819, 0xd192e819);
    assert CubeRootFraction(199, 0x5d6990624, 0xd6990624);
    assert CubeRootFraction(211, 0x5f40e3585, 0xf40e3585);
    assert CubeRootFraction(223, 0x6106aa070, 0x106aa070);
  }

  lemma Row5()
    ensures RowGives(5)
  {
    hide HasCubeRoot;
    Roots5();
  }

  lemma Roots6()
    ensures HasCubeRoot(227, 0x19a4c116) && HasCubeRoot(229, 0x1e376c08)
    ensures HasCubeRoot(233, 0x2748774c) && HasCubeRoot(239, 0x34b0bcb5)
    ensures HasCubeRoot(241, 0x391c0cb3) && HasCubeRoot(251, 0x4ed8aa4a)
    ensures HasCubeRoot(257, 0x5b9cca4f) && HasCubeRoot(263, 0x682e6ff3)
  {
    assert CubeRootFraction(227, 0x619a4c116, 0x19a4c116);
    assert CubeRootFraction(229, 0x61e376c08, 0x1e376c08);
    assert CubeRootFraction(233, 0x62748774c, 0x2748774c);
    assert CubeRootFraction(239, 0x634b0bcb5, 0x34b0bcb5);
    assert CubeRootFraction(241, 0x6391c0cb3, 0x391c0cb3);
    assert CubeRootFraction(251, 0x64ed8aa4a, 0x4ed8aa4a);
    assert CubeRootFraction(257, 0x65b9cca4f, 0x5b9cca4f);
    assert CubeRootFraction(263, 0x6682e6ff3, 0x682e6ff3);
  }

  lemma Row6()
    ensures RowGives(6)
  {
    hide HasCubeRoot;
    Roots6();
  }

  lemma Roots7()
    ensures HasCubeRoot(269, 0x748f82ee) && HasCubeRoot(271, 0x78a5636f)
    ensures HasCubeRoot(277, 0x84c87814) && HasCubeRoot(281, 0x8cc70208)
    ensures HasCubeRoot(283, 0x90befffa) && HasCubeRoot(293, 0xa4506ceb)
    ensures HasCubeRoot(307, 0xbef9a3f7) && HasCubeRoot(311, 0xc67178f2)
  {
    assert CubeRootFraction(269, 0x6748f82ee, 0x748f82ee);
    assert CubeRootFraction(271, 0x678a5636f, 0x78a5636f);
    assert CubeRootFraction(277, 0x684c87814, 0x84c87814);
    assert CubeRootFraction(281, 0x68cc70208, 0x8cc70208);
    assert CubeRootFraction(283, 0x690befffa, 0x90befffa);
    assert CubeRootFraction(293, 0x6a4506ceb, 0xa4506ceb);
    assert CubeRootFraction(307, 0x6bef9a3f7, 0xbef9a3f7);
    assert CubeRootFraction(311, 0x6c67178f2, 0xc67178f2);
  }

  lemma Row7()
    ensures RowGives(7)
  {
    hide HasCubeRoot;
    Roots7();
  }

  lemma RowsGive(r: nat)
    requires r < 8
    ensures RowGives(r)
  {
    hide RowGives;
    match r {
      case 0 => Row0();
      case 1 => Row1();
      case 2 => Row2();
      case 3 => Row3();
      case 4 => Row4();
      case 5 => Row5();
      case 6 => Row6();
      case _ => Row7();
    }
  }

  ghost predicate IsPrime(p: nat) {
    p >= 2 && forall d :: 2 <= d < p ==> p % d != 0
  }

  function Prime(t: nat): nat
    requires t < 64
  {
    PrimeRow(t / 8)[t % 8]
  }

  /** Each round constant is the first 32 bits of the fraction of a prime's cube root, and each initial word
      of its square root. */
  lemma ConstantsAreRoots(t: nat)
    requires t < 64
    ensures exists n: nat :: CubeRootFraction(Prime(t), n, RoundConstants()[t])
    ensures t < 8 ==> exists n: nat :: SquareRootFraction(Prime(t), n, InitialHash()[t])
  {
    hide CubeRootFraction, SquareRootFraction, PrimeRow, ConstantRow, SquareRoots, InitialHash;
    RowsGive(t / 8);
    assert HasCubeRoot(Prime(t), RoundConstants()[t]);
    if t < 8 {
      SquaresGive();
      assert SquareRootFraction(Prime(t), SquareRoots()[t], InitialHash()[t]);
    }
  }

  lemma SquaresGive()
    ensures forall i :: 0 <= i < 8 ==> SquareRootFraction(PrimeRow(0)[i], SquareRoots()[i], InitialHash()[i])
  {
  }

  // ----- the first primes

  /** No prime up to 17 divides x, or x is one of them. */
  predicate Passes(x: nat) {
    || x == 2 || x == 3 || x == 5 || x == 7 || x == 11 || x == 13 || x == 17
    || (x >= 2 && x % 2 != 0 && x % 3 != 0 && x % 5 != 0 && x % 7 != 0 && x % 11 != 0 && x % 13 != 0 && x % 17 != 0)
  }

  /** q is the next number after p that passes. */
  predicate NextPasses(p: nat, q: nat) {
    p < q && Passes(q) && NonePasses(p + 1, q)
  }

  predicate NonePasses(lo: nat, hi: nat)
    decreases hi - lo
  {
    lo >= hi || (!Passes(lo) && NonePasses(lo + 1, hi))
  }

  predicate RowFollows(p: nat, row: seq<nat>)
    requires |row| == 8
  {
    NextPasses(p, row[0]) && forall i :: 0 <= i < 7 ==> NextPasses(row[i], row[i + 1])
  }

  lemma Gaps0()
    ensures NextPasses(1, 2) && NextPasses(2, 3) && NextPasses(3, 5) && NextPasses(5, 7)
  {
  }

  lemma Gaps1()
    ensures NextPasses(7, 11) && NextPasses(11, 13) && NextPasses(13, 17) && NextPasses(17, 19)
  {
  }

  lemma Gaps2()
    ensures NextPasses(19, 23) && NextPasses(23, 29) && NextPasses(29, 31) && NextPasses(31, 37)
  {
  }

  lemma Gaps3()
    ensures NextPasses(37, 41) && NextPasses(41, 43) && NextPasses(43, 47) && NextPasses(47, 53)
  {
  }

  lemma Gaps4()
    ensures NextPasses(53, 59) && NextPasses(59, 61) && NextPasses(61, 67) && NextPasses(67, 71)
  {
  }

  lemma Gaps5()
    ensures NextPasses(71, 73) && NextPasses(73, 79) && NextPasses(79, 83) && NextPasses(83, 89)
  {
  }

  lemma Gaps6()
    ensures NextPasses(89, 97) && NextPasses(97, 101) && NextPasses(101, 103) && NextPasses(103, 107)
  {
  }

  lemma Gaps7()
    ensures NextPasses(107, 109) && NextPasses(109, 113) && NextPasses(113, 127) && NextPasses(127, 131)
  {
  }

  lemma Gaps8()
    ensures NextPasses(131, 137) && NextPasses(137, 139) && NextPasses(139, 149) && NextPasses(149, 151)
  {
  }

  lemma Gaps9()
    ensures NextPasses(151, 157) && NextPasses(157, 163) && NextPasses(163, 167) && NextPasses(167, 173)
  {
  }

  lemma Gaps10()
    ensures NextPasses(173, 179) && NextPasses(179, 181) && NextPasses(181, 191) && NextPasses(191, 193)
  {
  }

  lemma Gaps11()
    ensures NextPasses(193, 197) && NextPasses(197, 199) && NextPasses(199, 211) && NextPasses(211, 223)
  {
  }

  lemma Gaps12()
    ensures NextPasses(223, 227) && NextPasses(227, 229) && NextPasses(229, 233) && NextPasses(233, 239)
  {
  }

  lemma Gaps13()
    ensures NextPasses(239, 241) && NextPasses(241, 251) && NextPasses(251, 257) && NextPasses(257, 263)
  {
  }

  lemma Gaps14()
    ensures NextPasses(263, 269) && NextPasses(269, 271) && NextPasses(271, 277) && NextPasses(277, 281)
  {
  }

  lemma Gaps15()
    ensures NextPasses(281, 283) && NextPasses(283, 293) && NextPasses(293, 307) && NextPasses(307, 311)
  {
  }

  lemma RowsFollow(r: nat)
    requires r < 8
    ensures RowFollows(if r == 0 then 1 else PrimeRow(r - 1)[7], PrimeRow(r))
  {
    hide NextPasses;
    match r {
      case 0 => Gaps0(); Gaps1();
      case 1 => Gaps2(); Gaps3();
      case 2 => Gaps4(); Gaps5();
      case 3 => Gaps6(); Gaps7();
      case 4 => Gaps8(); Gaps9();
      case 5 => Gaps10(); Gaps11();
      case 6 => Gaps12(); Gaps13();
      case _ => Gaps14(); Gaps15();
    }
  }

  lemma {:induction false} NoneBetween(lo: nat, hi: nat, x: nat)
    requires NonePasses(lo, hi) && lo <= x < hi
    ensures !Passes(x)
    decreases hi - lo
  {
    if x > lo { NoneBetween(lo + 1, hi, x); }
  }

  /** A number below 18 * 18 that no prime up to 17 divides has no divisor at all. */
  lemma PassingIsPrime(x: nat)
    requires x < 324
    ensures Passes(x) <==> IsPrime(x)
  {
    if Passes(x) {
      forall d | 2 <= d < x ensures x % d != 0 {
        if x % d == 0 {
          HasFactor(x, d);
          assert false;
        }
      }
    }
  }

  lemma HasFactor(x: nat, d: nat)
    requires 2 <= d < x < 324 && x % d == 0
    ensures !Passes(x)
  {
    hide Passes;
    var e := x / d;
    assert x == d * e && e >= 2;
    if d < 18 {
      SmallFactor(x, d, e);
    } else {
      if e >= 18 { Product(d, e); }
      SmallFactor(x, e, d);
    }
  }

  lemma Product(d: nat, e: nat)
    requires d >= 18 && e >= 18
    ensures d * e >= 324
  {
    assert d * e >= 18 * e by { assert (d - 18) * e >= 0; }
  }

  lemma SmallFactor(x: nat, d: nat, e: nat)
    requires 2 <= d < 18 && e >= 2 && x == d * e
    ensures !Passes(x)
  {
    hide Passes;
    match d {
      case 2 => Divided(x, 2, e);
      case 3 => Divided(x, 3, e);
      case 4 => Divided(x, 2, 2 * e);
      case 5 => Divided(x, 5, e);
      case 6 => Divided(x, 2, 3 * e);
      case 7 => Divided(x, 7, e);
      case 8 => Divided(x, 2, 4 * e);
      case 9 => Divided(x, 3, 3 * e);
      case 10 => Divided(x, 2, 5 * e);
      case 11 => Divided(x, 11, e);
      case 12 => Divided(x, 2, 6 * e);
      case 13 => Divided(x, 13, e);
      case 14 => Divided(x, 2, 7 * e);
      case 15 => Divided(x, 3, 5 * e);
      case 16 => Divided(x, 2, 8 * e);
      case _ => Divided(x, 17, e);
    }
  }

  lemma OnlyZero(q: nat, t: int, r: nat)
    requires r == q * t && r < q
    ensures r == 0
  {
    if t >= 1 { TimesAtLeast(q, t); }
  }

  lemma TimesAtLeast(q: nat, t: int)
    requires t >= 1
    ensures q * t >= q
  {
    assert q * (t - 1) >= 0;
  }

  lemma TimesMod(q: nat, m: nat)
    requires q > 0
    ensures (q * m) % q == 0
  {
    var k, r := (q * m) / q, (q * m) % q;
    assert q * m == q * k + r;
    assert r == q * (m - k);
    OnlyZero(q, m - k, r);
  }

  lemma Divided(x: nat, q: nat, m: nat)
    requires (q == 2 || q == 3 || q == 5 || q == 7 || q == 11 || q == 13 || q == 17) && m >= 2 && x == q * m
    ensures !Passes(x)
  {
    hide Passes;
    TimesMod(q, m);
    DividedFails(x, q);
  }

  lemma DividedFails(x: nat, q: nat)
    requires (q == 2 || q == 3 || q == 5 || q == 7 || q == 11 || q == 13 || q == 17) && x > q && x % q == 0
    ensures !Passes(x)
  {
  }

  lemma SmallPrimes(r: nat, i: nat)
    requires r < 8 && i < 8
    ensures PrimeRow(r)[i] < 324 && (r == i == 0 ==> PrimeRow(r)[i] == 2)
  {
  }

  /** The table holds the first primes: every one up to the last, in order. */
  lemma FirstPrimes(t: nat, x: nat)
    requires t < 64
    ensures IsPrime(Prime(t)) && (t == 0 ==> Prime(t) == 2)
    ensures t > 0 ==> Prime(t - 1) < Prime(t) && (Prime(t - 1) < x < Prime(t) ==> !IsPrime(x))
  {
    hide Passes, NonePasses, PrimeRow, IsPrime;
    RowsFollow(t / 8);
    SmallPrimes(t / 8, t % 8);
    PassingIsPrime(Prime(t));
    if t > 0 && Prime(t - 1) < x < Prime(t) {
      NoneBetween(Prime(t - 1) + 1, Prime(t), x);
      PassingIsPrime(x);
    }
  }

  // ----- numbers in bytes

  function Number(b: seq<Byte>): nat {
    if b == [] then 0 else 256 * Number(b[..|b| - 1]) + b[|b| - 1]
  }

  function Power(k: nat): nat {
    if k == 0 then 1 else 256 * Power(k - 1)
  }

  lemma {:induction false} BytesOfNumber(n: nat, b: seq<Byte>)
    requires n < Power(|b|) && forall k :: 0 <= k < |b| ==> b[k] == ByteOf(n, |b| - 1 - k)
    ensures Number(b) == n
    decreases |b|
  {
    if b != [] {
      BytesOfNumber(n / 256, b[..|b| - 1]);
    }
  }

  /** The length field is the length, modulo 2^64, in eight bytes, the most significant first. */
  lemma LengthNumber(n: nat)
    ensures Number(Length64(n)) == n % 0x1_0000_0000_0000_0000
  {
    hide ByteOf;
    assert Power(8) == 0x1_0000_0000_0000_0000;
    BytesOfNumber(n % LENGTHS, Length64(n));
  }

  // ----- the word functions

  /** Rotations are rotations, by every number of places the standard turns a word. */
  lemma Rotates(x: Word)
    ensures RotR(x, 2) == x.RotateRight(2)
    ensures RotR(x, 6) == x.RotateRight(6)
    ensures RotR(x, 7) == x.RotateRight(7)
    ensures RotR(x, 11) == x.RotateRight(11)
    ensures RotR(x, 13) == x.RotateRight(13)
    ensures RotR(x, 17) == x.RotateRight(17)
    ensures RotR(x, 18) == x.RotateRight(18)
    ensures RotR(x, 19) == x.RotateRight(19)
    ensures RotR(x, 22) == x.RotateRight(22)
    ensures RotR(x, 25) == x.RotateRight(25)
  {
  }

  /** Where x has ones the result has the bits of y, elsewhere those of z. */
  lemma Chooses(x: Word, y: Word, z: Word)
    ensures Ch(x, y, z) & x == y & x && Ch(x, y, z) & !x == z & !x
  {
  }

  /** Where x and y have the same bit the result has it, elsewhere that of z. */
  lemma TakesMajority(x: Word, y: Word, z: Word)
    ensures Maj(x, y, z) & !(x ^ y) == x & !(x ^ y) && Maj(x, y, z) & (x ^ y) == z & (x ^ y)
  {
  }
}
