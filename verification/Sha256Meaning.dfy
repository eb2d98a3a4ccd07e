/**
  What the constants and the logical functions of SHA-256 are: the first 32 fractional bits of the cube roots
  of the first 64 primes and of the square roots of the first eight, and functions bit by bit.
 */
module Sha256Meaning {
  import opened ByteStrings
  import opened Wire
  import opened Sha256

  // ----- bits -----

  /** On bits that are set in x it is y, on bits that are clear in x it is z. */
  lemma ChSelects(x: Word, y: Word, z: Word, m: Word)
    ensures x & m == m ==> Ch(x, y, z) & m == y & m
    ensures x & m == 0 ==> Ch(x, y, z) & m == z & m
  {
    if x & m == m {
      ChWhereSet(x, y, z, m);
    }
    if x & m == 0 {
      ChWhereClear(x, y, z, m);
    }
  }

  lemma ChWhereSet(x: Word, y: Word, z: Word, m: Word)
    requires x & m == m
    ensures Ch(x, y, z) & m == y & m
  {
  }

  lemma ChWhereClear(x: Word, y: Word, z: Word, m: Word)
    requires x & m == 0
    ensures Ch(x, y, z) & m == z & m
  {
  }

  /** On bits where two of the three agree, it agrees with them. */
  lemma MajAgrees(x: Word, y: Word, z: Word, m: Word)
    requires x & m == y & m
    ensures Maj(x, y, z) & m == x & m
    ensures Maj(x, z, y) & m == x & m
    ensures Maj(z, x, y) & m == x & m
  {
    MajFirstTwo(x, y, z, m);
    MajOuterTwo(x, z, y, m);
    MajLastTwo(z, x, y, m);
  }

  lemma MajFirstTwo(x: Word, y: Word, z: Word, m: Word)
    requires x & m == y & m
    ensures Maj(x, y, z) & m == x & m
  {
  }

  lemma MajOuterTwo(x: Word, y: Word, z: Word, m: Word)
    requires x & m == z & m
    ensures Maj(x, y, z) & m == x & m
  {
  }

  lemma MajLastTwo(x: Word, y: Word, z: Word, m: Word)
    requires y & m == z & m
    ensures Maj(x, y, z) & m == y & m
  {
  }

  /** With its low bits cleared, the rotated word is x moved up: the low n bits of x are now the top ones. */
  lemma RotrTop(x: Word, n: Word)
    requires 0 < n < 32
    ensures (Rotr(x, n) >> (32 - n)) << (32 - n) == x << (32 - n)
  {
  }

  /** With its top bits cleared, it is x moved down: the other bits are now the low ones. */
  lemma RotrRest(x: Word, n: Word)
    requires 0 < n < 32
    ensures (Rotr(x, n) << n) >> n == x >> n
  {
  }

  // ----- primes -----

  predicate IsPrime(n: nat) {
    n >= 2 && forall d :: 2 <= d < n ==> n % d != 0
  }

  /** Divisible by one of the primes below 19. */
  predicate Small(n: nat) {
    n % 2 == 0 || n % 3 == 0 || n % 5 == 0 || n % 7 == 0 || n % 11 == 0 || n % 13 == 0 || n % 17 == 0
  }

  predicate FirstFew(n: nat) {
    n == 2 || n == 3 || n == 5 || n == 7 || n == 11 || n == 13 || n == 17
  }

  /** A test for primes below 361. */
  predicate Passes(n: nat) {
    FirstFew(n) || !Small(n)
  }

  lemma Multiple(n: nat, d: nat, p: nat)
    requires d > 0 && p > 0 && n % d == 0 && d % p == 0
    ensures n % p == 0
  {
    var q, e := n / d, d / p;
    assert n == (p * e) * q == p * (e * q);
    ModUnique(n, p, e * q, 0);
  }

  lemma DivisorIsSmall(n: nat, d: nat)
    requires 2 <= d <= 18 && n % d == 0
    ensures Small(n)
  {
    if d % 2 == 0 {
      Multiple(n, d, 2);
    } else if d % 3 == 0 {
      Multiple(n, d, 3);
    } else {
      assert d == 5 || d == 7 || d == 11 || d == 13 || d == 17;
    }
  }

  /** Of two factors of a number below 361, one is below 19. */
  lemma SmallFactor(n: nat, d: nat, q: nat)
    requires n == d * q && 0 < n < 361
    ensures n % d == 0 && n % q == 0 && (d < 19 || q < 19)
  {
    ModUnique(n, d, q, 0);
    ModUnique(n, q, d, 0);
    if d >= 19 {
      assert d * q >= 19 * q;
    }
  }

  lemma PassesIsPrime(n: nat)
    requires 17 < n < 361 && !Small(n)
    ensures IsPrime(n)
  {
    hide Small;
    forall d | 2 <= d < n
      ensures n % d != 0
    {
      if n % d == 0 {
        var q := n / d;
        SmallFactor(n, d, q);
        DivisorIsSmall(n, if d < 19 then d else q);
      }
    }
  }

  lemma FirstPrimes(n: nat, d: nat)
    requires FirstFew(n) && 2 <= d < n
    ensures n % d != 0
  {
    if d == 2 {
    } else if d == 3 {
    } else if d == 4 {
    } else if d == 5 {
    } else if d == 6 {
    } else if d == 7 {
    } else if d == 8 {
    } else if d == 9 {
    } else if d == 10 {
    } else if d == 11 {
    } else if d == 12 {
    } else if d == 13 {
    } else if d == 14 {
    } else if d == 15 {
    }
  }

  lemma FactorsSpoil(n: nat, d: nat)
    requires 2 <= d < n && n % d == 0
    ensures !IsPrime(n)
  {
  }

  lemma PassesIff(n: nat)
    requires 2 <= n < 361
    ensures Passes(n) <==> IsPrime(n)
  {
    hide IsPrime;
    if FirstFew(n) {
      FirstPrimesArePrime(n);
    } else if !Small(n) {
      assert n > 17;
      PassesIsPrime(n);
    } else {
      FactorsSpoil(n, if n % 2 == 0 then 2 else if n % 3 == 0 then 3 else if n % 5 == 0 then 5 else if n % 7 == 0 then 7
                      else if n % 11 == 0 then 11 else if n % 13 == 0 then 13 else 17);
    }
  }

  lemma FirstPrimesArePrime(n: nat)
    requires FirstFew(n)
    ensures IsPrime(n)
  {
    forall d | 2 <= d < n
      ensures n % d != 0
    {
      FirstPrimes(n, d);
    }
  }

  /** The next number that passes, up to 311. */
  function PrimeAfter(n: nat): (p: nat)
    ensures p > n && (n < 311 ==> p <= 311)
    decreases if n < 311 then 311 - n else 0
  {
    if n >= 311 || Passes(n + 1) then n + 1 else PrimeAfter(n + 1)
  }

  lemma {:induction false} NextPrime(n: nat)
    requires 1 <= n < 311
    ensures IsPrime(PrimeAfter(n)) && forall m :: n < m < PrimeAfter(n) ==> !IsPrime(m)
    decreases 311 - n
  {
    hide IsPrime, Passes;
    PassesIff(n + 1);
    if !Passes(n + 1) {
      Last();
      NextPrime(n + 1);
    }
  }

  lemma Last()
    ensures Passes(311)
  {
  }

  /** Prime number t, counted from 0. */
  function Prime(t: nat): (p: nat)
    ensures p >= 2
  {
    if t == 0 then 2 else PrimeAfter(Prime(t - 1))
  }

  // ----- roots -----

  function Number(w: Word): nat {
    w as nat
  }

  /** x is the cube root of p, in units of 2 to the -32, rounded down. */
  predicate CubeRootOf(p: nat, x: nat) {
    x * x * x <= p * 0x1_0000_0000_0000_0000_0000_0000 < (x + 1) * (x + 1) * (x + 1)
  }

  predicate SquareRootOf(p: nat, x: nat) {
    x * x <= p * 0x1_0000_0000_0000_0000 < (x + 1) * (x + 1)
  }

  /** The whole part of the cube root of p, for p below 343. */
  function Whole(p: nat): nat {
    if p < 8 then 1 else if p < 27 then 2 else if p < 64 then 3 else if p < 125 then 4 else if p < 216 then 5 else 6
  }

  predicate IsRoot(t: nat)
    requires t < 64
  {
    CubeRootOf(Prime(t), Whole(Prime(t)) * U32 + Number(K(t)))
  }

  lemma {:induction false} Skips(n: nat, p: nat)
    requires n < p <= 311 && Passes(p) && forall m :: n < m < p ==> !Passes(m)
    ensures PrimeAfter(n) == p
    decreases p - n
  {
    hide Passes;
    if n + 1 < p {
      Skips(n + 1, p);
    }
  }

  lemma NextOf(t: nat, p: nat, q: nat)
    requires Prime(t) == p < q <= 311 && Passes(q) && forall m :: p < m < q ==> !Passes(m)
    ensures Prime(t + 1) == q
  {
    hide Passes, PrimeAfter;
    Skips(p, q);
  }

  /** Every second number between p and q fails the test. */
  predicate OddsFail(p: nat, q: nat)
    decreases q - p
  {
    p + 2 >= q || (Small(p + 2) && OddsFail(p + 2, q))
  }

  lemma {:induction false} AllFail(p: nat, q: nat, m: nat)
    requires p % 2 == 1 && OddsFail(p, q) && p < m < q
    ensures Small(m)
    decreases m - p
  {
    hide Small;
    if m == p + 1 {
      EvenIsSmall(m);
    } else if m > p + 2 {
      AllFail(p + 2, q, m);
    }
  }

  lemma EvenIsSmall(n: nat)
    requires n % 2 == 0
    ensures Small(n)
  {
  }

  /** None of the first few primes is between p and q. */
  predicate NoFew(p: nat, q: nat) {
    && (2 <= p || q <= 2) && (3 <= p || q <= 3) && (5 <= p || q <= 5) && (7 <= p || q <= 7)
    && (11 <= p || q <= 11) && (13 <= p || q <= 13) && (17 <= p || q <= 17)
  }

  lemma FewOutside(p: nat, q: nat, m: nat)
    requires NoFew(p, q) && p < m < q
    ensures !FirstFew(m)
  {
  }

  lemma Next(t: nat, p: nat, q: nat)
    requires Prime(t) == p && p < q <= 311 && p % 2 == 1 && OddsFail(p, q) && Passes(q) && NoFew(p, q)
    ensures Prime(t + 1) == q
  {
    hide Prime, Small, OddsFail, FirstFew, NoFew;
    forall m | p < m < q
      ensures !Passes(m)
    {
      AllFail(p, q, m);
      FewOutside(p, q, m);
    }
    NextOf(t, p, q);
  }

  lemma FirstPrime()
    ensures Prime(0) == 2
  {
  }

  lemma Root(t: nat, p: nat, k: Word, n: nat)
    requires t < 64 && Prime(t) == p && K(t) == k && Number(k) == n && CubeRootOf(p, Whole(p) * U32 + n)
    ensures IsRoot(t)
  {
    hide CubeRootOf, K, Prime, Whole, Number;
  }

  lemma Primes0()
    ensures Prime(0) == 2 && Prime(1) == 3 && Prime(2) == 5 && Prime(3) == 7
    ensures Prime(4) == 11 && Prime(5) == 13 && Prime(6) == 17 && Prime(7) == 19
    ensures Prime(8) == 23
  {
    hide Prime;
    FirstPrime();
    NextOf(0, 2, 3);
    Next(1, 3, 5);
    Next(2, 5, 7);
    Next(3, 7, 11);
    Next(4, 11, 13);
    Next(5, 13, 17);
    Next(6, 17, 19);
    Next(7, 19, 23);
  }

  lemma Roots0()
    ensures forall t :: 0 <= t < 8 ==> IsRoot(t)
  {
    hide Prime, IsRoot;
    Primes0();
    Root(0, 2, 0x428a2f98, 0x428a2f98);
    Root(1, 3, 0x71374491, 0x71374491);
    Root(2, 5, 0xb5c0fbcf, 0xb5c0fbcf);
    Root(3, 7, 0xe9b5dba5, 0xe9b5dba5);
    Root(4, 11, 0x3956c25b, 0x3956c25b);
    Root(5, 13, 0x59f111f1, 0x59f111f1);
    Root(6, 17, 0x923f82a4, 0x923f82a4);
    Root(7, 19, 0xab1c5ed5, 0xab1c5ed5);
  }

  lemma Primes1()
    ensures Prime(8) == 23 && Prime(9) == 29 && Prime(10) == 31 && Prime(11) == 37
    ensures Prime(12) == 41 && Prime(13) == 43 && Prime(14) == 47 && Prime(15) == 53
    ensures Prime(16) == 59
  {
    hide Prime;
    Primes0();
    Next(8, 23, 29);
    Next(9, 29, 31);
    Next(10, 31, 37);
    Next(11, 37, 41);
    Next(12, 41, 43);
    Next(13, 43, 47);
    Next(14, 47, 53);
    Next(15, 53, 59);
  }

  lemma Roots1()
    ensures forall t :: 8 <= t < 16 ==> IsRoot(t)
  {
    hide Prime, IsRoot;
    Primes1();
    Root(8, 23, 0xd807aa98, 0xd807aa98);
    Root(9, 29, 0x12835b01, 0x12835b01);
    Root(10, 31, 0x243185be, 0x243185be);
    Root(11, 37, 0x550c7dc3, 0x550c7dc3);
    Root(12, 41, 0x72be5d74, 0x72be5d74);
    Root(13, 43, 0x80deb1fe, 0x80deb1fe);
    Root(14, 47, 0x9bdc06a7, 0x9bdc06a7);
    Root(15, 53, 0xc19bf174, 0xc19bf174);
  }

  lemma Primes2()
    ensures Prime(16) == 59 && Prime(17) == 61 && Prime(18) == 67 && Prime(19) == 71
    ensures Prime(20) == 73 && Prime(21) == 79 && Prime(22) == 83 && Prime(23) == 89
    ensures Prime(24) == 97
  {
    hide Prime;
    Primes1();
    Next(16, 59, 61);
    Next(17, 61, 67);
    Next(18, 67, 71);
    Next(19, 71, 73);
    Next(20, 73, 79);
    Next(21, 79, 83);
    Next(22, 83, 89);
    Next(23, 89, 97);
  }

  lemma Roots2()
    ensures forall t :: 16 <= t < 24 ==> IsRoot(t)
  {
    hide Prime, IsRoot;
    Primes2();
    Root(16, 59, 0xe49b69c1, 0xe49b69c1);
    Root(17, 61, 0xefbe4786, 0xefbe4786);
    Root(18, 67, 0x0fc19dc6, 0x0fc19dc6);
    Root(19, 71, 0x240ca1cc, 0x240ca1cc);
    Root(20, 73, 0x2de92c6f, 0x2de92c6f);
    Root(21, 79, 0x4a7484aa, 0x4a7484aa);
    Root(22, 83, 0x5cb0a9dc, 0x5cb0a9dc);
    Root(23, 89, 0x76f988da, 0x76f988da);
  }

  lemma Primes3()
    ensures Prime(24) == 97 && Prime(25) == 101 && Prime(26) == 103 && Prime(27) == 107
    ensures Prime(28) == 109 && Prime(29) == 113 && Prime(30) == 127 && Prime(31) == 131
    ensures Prime(32) == 137
  {
    hide Prime;
    Primes2();
    Next(24, 97, 101);
    Next(25, 101, 103);
    Next(26, 103, 107);
    Next(27, 107, 109);
    Next(28, 109, 113);
    Next(29, 113, 127);
    Next(30, 127, 131);
    Next(31, 131, 137);
  }

  lemma Roots3()
    ensures forall t :: 24 <= t < 32 ==> IsRoot(t)
  {
    hide Prime, IsRoot;
    Primes3();
    Root(24, 97, 0x983e5152, 0x983e5152);
    Root(25, 101, 0xa831c66d, 0xa831c66d);
    Root(26, 103, 0xb00327c8, 0xb00327c8);
    Root(27, 107, 0xbf597fc7, 0xbf597fc7);
    Root(28, 109, 0xc6e00bf3, 0xc6e00bf3);
    Root(29, 113, 0xd5a79147, 0xd5a79147);
    Root(30, 127, 0x06ca6351, 0x06ca6351);
    Root(31, 131, 0x14292967, 0x14292967);
  }

  lemma Primes4()
    ensures Prime(32) == 137 && Prime(33) == 139 && Prime(34) == 149 && Prime(35) == 151
    ensures Prime(36) == 157 && Prime(37) == 163 && Prime(38) == 167 && Prime(39) == 173
    ensures Prime(40) == 179
  {
    hide Prime;
    Primes3();
    Next(32, 137, 139);
    Next(33, 139, 149);
    Next(34, 149, 151);
    Next(35, 151, 157);
    Next(36, 157, 163);
    Next(37, 163, 167);
    Next(38, 167, 173);
    Next(39, 173, 179);
  }

  lemma Roots4()
    ensures forall t :: 32 <= t < 40 ==> IsRoot(t)
  {
    hide Prime, IsRoot;
    Primes4();
    Root(32, 137, 0x27b70a85, 0x27b70a85);
    Root(33, 139, 0x2e1b2138, 0x2e1b2138);
    Root(34, 149, 0x4d2c6dfc, 0x4d2c6dfc);
    Root(35, 151, 0x53380d13, 0x53380d13);
    Root(36, 157, 0x650a7354, 0x650a7354);
    Root(37, 163, 0x766a0abb, 0x766a0abb);
    Root(38, 167, 0x81c2c92e, 0x81c2c92e);
    Root(39, 173, 0x92722c85, 0x92722c85);
  }

  lemma Primes5()
    ensures Prime(40) == 179 && Prime(41) == 181 && Prime(42) == 191 && Prime(43) == 193
    ensures Prime(44) == 197 && Prime(45) == 199 && Prime(46) == 211 && Prime(47) == 223
    ensures Prime(48) == 227
  {
    hide Prime;
    Primes4();
    Next(40, 179, 181);
    Next(41, 181, 191);
    Next(42, 191, 193);
    Next(43, 193, 197);
    Next(44, 197, 199);
    Next(45, 199, 211);
    Next(46, 211, 223);
    Next(47, 223, 227);
  }

  lemma Roots5()
    ensures forall t :: 40 <= t < 48 ==> IsRoot(t)
  {
    hide Prime, IsRoot;
    Primes5();
    Root(40, 179, 0xa2bfe8a1, 0xa2bfe8a1);
    Root(41, 181, 0xa81a664b, 0xa81a664b);
    Root(42, 191, 0xc24b8b70, 0xc24b8b70);
    Root(43, 193, 0xc76c51a3, 0xc76c51a3);
    Root(44, 197, 0xd192e819, 0xd192e819);
    Root(45, 199, 0xd6990624, 0xd6990624);
    Root(46, 211, 0xf40e3585, 0xf40e3585);
    Root(47, 223, 0x106aa070, 0x106aa070);
  }

  lemma Primes6()
    ensures Prime(48) == 227 && Prime(49) == 229 && Prime(50) == 233 && Prime(51) == 239
    ensures Prime(52) == 241 && Prime(53) == 251 && Prime(54) == 257 && Prime(55) == 263
    ensures Prime(56) == 269
  {
    hide Prime;
    Primes5();
    Next(48, 227, 229);
    Next(49, 229, 233);
    Next(50, 233, 239);
    Next(51, 239, 241);
    Next(52, 241, 251);
    Next(53, 251, 257);
    Next(54, 257, 263);
    Next(55, 263, 269);
  }

  lemma Roots6()
    ensures forall t :: 48 <= t < 56 ==> IsRoot(t)
  {
    hide Prime, IsRoot;
    Primes6();
    Root(48, 227, 0x19a4c116, 0x19a4c116);
    Root(49, 229, 0x1e376c08, 0x1e376c08);
    Root(50, 233, 0x2748774c, 0x2748774c);
    Root(51, 239, 0x34b0bcb5, 0x34b0bcb5);
    Root(52, 241, 0x391c0cb3, 0x391c0cb3);
    Root(53, 251, 0x4ed8aa4a, 0x4ed8aa4a);
    Root(54, 257, 0x5b9cca4f, 0x5b9cca4f);
    Root(55, 263, 0x682e6ff3, 0x682e6ff3);
  }

  lemma Primes7()
    ensures Prime(56) == 269 && Prime(57) == 271 && Prime(58) == 277 && Prime(59) == 281
    ensures Prime(60) == 283 && Prime(61) == 293 && Prime(62) == 307 && Prime(63) == 311
  {
    hide Prime;
    Primes6();
    Next(56, 269, 271);
    Next(57, 271, 277);
    Next(58, 277, 281);
    Next(59, 281, 283);
    Next(60, 283, 293);
    Next(61, 293, 307);
    Next(62, 307, 311);
  }

  lemma Roots7()
    ensures forall t :: 56 <= t < 64 ==> IsRoot(t)
  {
    hide Prime, IsRoot;
    Primes7();
    Root(56, 269, 0x748f82ee, 0x748f82ee);
    Root(57, 271, 0x78a5636f, 0x78a5636f);
    Root(58, 277, 0x84c87814, 0x84c87814);
    Root(59, 281, 0x8cc70208, 0x8cc70208);
    Root(60, 283, 0x90befffa, 0x90befffa);
    Root(61, 293, 0xa4506ceb, 0xa4506ceb);
    Root(62, 307, 0xbef9a3f7, 0xbef9a3f7);
    Root(63, 311, 0xc67178f2, 0xc67178f2);
  }

  /** Each round constant holds the first 32 fractional bits of the cube root of its prime. */
  lemma RoundConstantIsRoot(t: nat)
    requires t < 64
    ensures CubeRootOf(Prime(t), Whole(Prime(t)) * U32 + Number(K(t)))
  {
    hide K, Prime, CubeRootOf, Whole, Number;
    if t < 8 {
      Roots0();
    } else if t < 16 {
      Roots1();
    } else if t < 24 {
      Roots2();
    } else if t < 32 {
      Roots3();
    } else if t < 40 {
      Roots4();
    } else if t < 48 {
      Roots5();
    } else if t < 56 {
      Roots6();
    } else {
      Roots7();
    }
    assert IsRoot(t);
  }

  /** Word t of the initial state. */
  function H(t: nat): Word
    requires t < 8
  {
    Init()[t]
  }

  predicate IsInit(t: nat)
    requires t < 8
  {
    SquareRootOf(Prime(t), WholeSquare(Prime(t)) * U32 + Number(H(t)))
  }

  function WholeSquare(p: nat): nat {
    if p < 4 then 1 else if p < 9 then 2 else if p < 16 then 3 else 4
  }

  lemma InitRow()
    ensures H(0) == 0x6a09e667 && H(1) == 0xbb67ae85 && H(2) == 0x3c6ef372 && H(3) == 0xa54ff53a
    ensures H(4) == 0x510e527f && H(5) == 0x9b05688c && H(6) == 0x1f83d9ab && H(7) == 0x5be0cd19
  {
  }

  lemma InitRoot(t: nat, p: nat, k: Word, n: nat)
    requires t < 8 && Prime(t) == p && H(t) == k && Number(k) == n && SquareRootOf(p, WholeSquare(p) * U32 + n)
    ensures IsInit(t)
  {
    hide SquareRootOf, H, Prime, WholeSquare, Number;
  }


  lemma InitRoots0()
    ensures forall t :: 0 <= t < 4 ==> IsInit(t)
  {
    hide H, Prime, IsInit;
    InitRow();
    Primes0();
    InitRoot(0, 2, 0x6a09e667, 0x6a09e667);
    InitRoot(1, 3, 0xbb67ae85, 0xbb67ae85);
    InitRoot(2, 5, 0x3c6ef372, 0x3c6ef372);
    InitRoot(3, 7, 0xa54ff53a, 0xa54ff53a);
  }

  lemma InitRoots1()
    ensures forall t :: 4 <= t < 8 ==> IsInit(t)
  {
    hide H, Prime, IsInit;
    InitRow();
    Primes0();
    InitRoot(4, 11, 0x510e527f, 0x510e527f);
    InitRoot(5, 13, 0x9b05688c, 0x9b05688c);
    InitRoot(6, 17, 0x1f83d9ab, 0x1f83d9ab);
    InitRoot(7, 19, 0x5be0cd19, 0x5be0cd19);
  }

  /** The same for the initial state and square roots. */
  lemma InitIsRoot(t: nat)
    requires t < 8
    ensures SquareRootOf(Prime(t), WholeSquare(Prime(t)) * U32 + Number(H(t)))
  {
    hide IsInit, H, Prime, SquareRootOf, WholeSquare, Number;
    if t < 4 {
      InitRoots0();
    } else {
      InitRoots1();
    }
    InitMeans(t);
  }

  lemma InitMeans(t: nat)
    requires t < 8 && IsInit(t)
    ensures SquareRootOf(Prime(t), WholeSquare(Prime(t)) * U32 + Number(H(t)))
  {
    hide H, Prime, SquareRootOf, WholeSquare, Number;
  }

  lemma {:induction false} PrimesRise(t: nat, u: nat)
    requires t < u
    ensures Prime(t) < Prime(u)
  {
    if t < u - 1 {
      PrimesRise(t, u - 1);
    }
  }

  /** Prime(0), Prime(1) and so on are the primes from 2 on, none left out. */
  lemma PrimesInOrder(t: nat)
    requires t < 63
    ensures Prime(0) == 2 && IsPrime(2) && IsPrime(Prime(t + 1)) && Prime(t) < Prime(t + 1)
    ensures forall n :: Prime(t) < n < Prime(t + 1) ==> !IsPrime(n)
  {
    hide IsPrime, PrimeAfter;
    PassesIff(2);
    Primes7();
    PrimesRise(t, 63);
    NextPrime(Prime(t));
  }
}
