/**
 What the constants and functions of the SHA-256 specification are, said without them: the words of sections 4.2.2 and
 5.3.3 as roots of the first primes, the functions of section 4.1.2 bit by bit, and the chaining from the front.
 */
module Sha256Constants {
  import opened Arithmetic
  import opened Bytes
  import opened Sha256Spec

  // ---- The first 64 primes ----

  predicate IsPrime(n: nat) {
    n >= 2 && forall d :: 2 <= d < n ==> n % d != 0
  }

  const PRIMES: seq<nat> :=
    [2, 3, 5, 7, 11, 13, 17, 19]
    + [23, 29, 31, 37, 41, 43, 47, 53]
    + [59, 61, 67, 71, 73, 79, 83, 89]
    + [97, 101, 103, 107, 109, 113, 127, 131]
    + [137, 139, 149, 151, 157, 163, 167, 173]
    + [179, 181, 191, 193, 197, 199, 211, 223]
    + [227, 229, 233, 239, 241, 251, 257, 263]
    + [269, 271, 277, 281, 283, 293, 307, 311]

  /** Below 19 * 19 a number is prime when no prime below 19 divides it. */
  predicate Sieved(n: nat) {
    && (n == 2 || n % 2 != 0) && (n == 3 || n % 3 != 0) && (n == 5 || n % 5 != 0) && (n == 7 || n % 7 != 0)
    && (n == 11 || n % 11 != 0) && (n == 13 || n % 13 != 0) && (n == 17 || n % 17 != 0)
  }

  lemma SieveFinds(n: nat, d: nat)
    requires 2 <= d <= 18 && d < n && n % d == 0
    ensures !Sieved(n)
  {
    var q := SmallFactor(d);
    FactorDivides(n, d, q);
  }

  lemma SmallFactor(d: nat) returns (q: nat)
    requires 2 <= d <= 18
    ensures q in {2, 3, 5, 7, 11, 13, 17} && q <= d && d % q == 0
  {
    q := if d % 2 == 0 then 2 else if d % 3 == 0 then 3 else if d % 5 == 0 then 5 else d;
    assert d % d == 0;
  }

  lemma FactorDivides(n: nat, d: nat, q: nat)
    requires 0 < q && 0 < d && d % q == 0 && n % d == 0
    ensures n % q == 0
  {
    var m, e := d / q, n / d;
    assert n == (q * m) * e == q * (m * e);
    Multiple(q, m * e);
  }

  lemma Multiple(q: nat, m: nat)
    requires q > 0
    ensures (q * m) % q == 0
  {
    DivModUnique(m, q, 0);
  }

  lemma ProductOfLarge(d: nat, e: nat)
    requires d >= 19 && e >= 19
    ensures d * e >= 361
  {
    MulMonotone(18, d, e);
  }

  lemma SievedIsPrime(n: nat)
    requires 2 <= n < 361
    ensures Sieved(n) <==> IsPrime(n)
  {
    if Sieved(n) {
      forall d | 2 <= d < n
        ensures n % d != 0
      {
        if n % d == 0 {
          var e := n / d;
          assert n == d * e;
          if d <= 18 {
            SieveFinds(n, d);
          } else {
            if e >= 19 { ProductOfLarge(d, e); }
            assert e <= 18;
            assert e >= 2;
            assert n % e == 0 by { Multiple(e, d); }
            SieveFinds(n, e);
          }
        }
      }
    }
  }

  predicate NoneSieved(a: nat, b: nat)
    decreases b - a
  {
    a + 1 >= b || (!Sieved(a + 1) && NoneSieved(a + 1, b))
  }

  lemma {:induction false} NoneSievedBetween(a: nat, b: nat, n: nat)
    requires NoneSieved(a, b) && a < n < b
    ensures !Sieved(n)
    decreases b - a
  {
    if n > a + 1 {
      NoneSievedBetween(a + 1, b, n);
    }
  }

  /** PRIMES[t + 1] is the next prime after PRIMES[t]. */
  predicate NextSieved(t: nat)
    requires t < 63
  {
    PRIMES[t] < PRIMES[t + 1] && Sieved(PRIMES[t + 1]) && NoneSieved(PRIMES[t], PRIMES[t + 1])
  }

  lemma Sieve0()
    ensures NextSieved(0) && NextSieved(1) && NextSieved(2) && NextSieved(3)
    ensures NextSieved(4) && NextSieved(5) && NextSieved(6) && NextSieved(7)
  {
  }

  lemma Sieve8()
    ensures NextSieved(8) && NextSieved(9) && NextSieved(10) && NextSieved(11)
    ensures NextSieved(12) && NextSieved(13) && NextSieved(14) && NextSieved(15)
  {
  }

  lemma Sieve16()
    ensures NextSieved(16) && NextSieved(17) && NextSieved(18) && NextSieved(19)
    ensures NextSieved(20) && NextSieved(21) && NextSieved(22) && NextSieved(23)
  {
  }

  lemma Sieve24()
    ensures NextSieved(24) && NextSieved(25) && NextSieved(26) && NextSieved(27)
    ensures NextSieved(28) && NextSieved(29) && NextSieved(30) && NextSieved(31)
  {
  }

  lemma Sieve32()
    ensures NextSieved(32) && NextSieved(33) && NextSieved(34) && NextSieved(35)
    ensures NextSieved(36) && NextSieved(37) && NextSieved(38) && NextSieved(39)
  {
  }

  lemma Sieve40()
    ensures NextSieved(40) && NextSieved(41) && NextSieved(42) && NextSieved(43)
    ensures NextSieved(44) && NextSieved(45) && NextSieved(46) && NextSieved(47)
  {
  }

  lemma Sieve48()
    ensures NextSieved(48) && NextSieved(49) && NextSieved(50) && NextSieved(51)
    ensures NextSieved(52) && NextSieved(53) && NextSieved(54) && NextSieved(55)
  {
  }

  lemma Sieve56()
    ensures NextSieved(56) && NextSieved(57) && NextSieved(58) && NextSieved(59)
    ensures NextSieved(60) && NextSieved(61) && NextSieved(62)
  {
  }

  lemma NextIsSieved(t: nat)
    requires t < 63
    ensures NextSieved(t)
  {
    hide NextSieved;
    if t < 8 { Sieve0(); }
    else if t < 16 { Sieve8(); }
    else if t < 24 { Sieve16(); }
    else if t < 32 { Sieve24(); }
    else if t < 40 { Sieve32(); }
    else if t < 48 { Sieve40(); }
    else if t < 56 { Sieve48(); }
    else { Sieve56(); }
  }

  lemma {:induction false} PrimesFromTwo(t: nat)
    requires t < 64
    ensures 2 <= PRIMES[t]
  {
    if t == 0 {
      assert PRIMES[0] == 2;
    } else {
      hide PRIMES;
      PrimesFromTwo(t - 1);
      NextIsSieved(t - 1);
    }
  }

  lemma {:induction false} PrimesUpTo311(t: nat)
    requires t < 64
    ensures PRIMES[t] <= 311
    decreases 64 - t
  {
    if t == 63 {
      assert PRIMES[63] == 311;
    } else {
      hide PRIMES;
      PrimesUpTo311(t + 1);
      NextIsSieved(t);
    }
  }

  /** The list holds the first 64 primes, in order. */
  lemma FirstPrimes(t: nat)
    requires t < 64
    ensures IsPrime(PRIMES[t])
    ensures t == 0 ==> PRIMES[t] == 2
    ensures t > 0 ==> PRIMES[t - 1] < PRIMES[t] && forall n :: PRIMES[t - 1] < n < PRIMES[t] ==> !IsPrime(n)
  {
    assert PRIMES[0] == 2;
    hide PRIMES, IsPrime, Sieved, NoneSieved;
    PrimesFromTwo(t);
    PrimesUpTo311(t);
    SievedIsPrime(PRIMES[t]);
    if t == 0 {
      TwoIsPrime();
    } else {
      NextIsSieved(t - 1);
      PrimesFromTwo(t - 1);
      forall n | PRIMES[t - 1] < n < PRIMES[t]
        ensures !IsPrime(n)
      {
        NoneSievedBetween(PRIMES[t - 1], PRIMES[t], n);
        SievedIsPrime(n);
      }
    }
  }

  lemma TwoIsPrime()
    ensures IsPrime(2)
  {
  }

  // ---- The constants ----

  const TWO_96: int := 0x1_0000_0000_0000_0000_0000_0000

  function CubeRoot(p: nat): (n: nat)
    requires p < 343
    ensures n * n * n <= p < (n + 1) * (n + 1) * (n + 1)
  {
    if p < 1 then 0 else if p < 8 then 1 else if p < 27 then 2 else if p < 64 then 3
    else if p < 125 then 4 else if p < 216 then 5 else 6
  }

  function SquareRoot(p: nat): (n: nat)
    requires p < 25
    ensures n * n <= p < (n + 1) * (n + 1)
  {
    if p < 1 then 0 else if p < 4 then 1 else if p < 9 then 2 else if p < 16 then 3 else 4
  }

  /** K[t] is the fractional part of the cube root of the prime, cut to 32 bits. */
  predicate IsCubeRoot(t: nat)
    requires t < 64
  {
    PRIMES[t] < 343
    && var k := CubeRoot(PRIMES[t]) * TWO_32 + K[t] as int;
    k * k * k <= PRIMES[t] * TWO_96 < (k + 1) * (k + 1) * (k + 1)
  }

  /** The initial word is that of the square root. */
  predicate IsSquareRoot(t: nat)
    requires t < 8
  {
    PRIMES[t] < 25
    && var k := SquareRoot(PRIMES[t]) * TWO_32 + H0()[t] as int;
    k * k <= PRIMES[t] * TWO_64 < (k + 1) * (k + 1)
  }

  lemma CubeRootAt(t: nat, p: nat, w: Word, k: nat)
    requires t < 64 && PRIMES[t] == p < 343 && K[t] == w && k == CubeRoot(p) * TWO_32 + w as int
    requires k * k * k <= p * TWO_96 < (k + 1) * (k + 1) * (k + 1)
    ensures IsCubeRoot(t)
  {
    hide PRIMES, K, CubeRoot;
  }

  lemma Constants0()
    ensures K[0] == 0x428a2f98 && K[1] == 0x71374491 && K[2] == 0xb5c0fbcf && K[3] == 0xe9b5dba5
    ensures K[4] == 0x3956c25b && K[5] == 0x59f111f1 && K[6] == 0x923f82a4 && K[7] == 0xab1c5ed5
  {
  }

  lemma Primes0()
    ensures PRIMES[0] == 2 && PRIMES[1] == 3 && PRIMES[2] == 5 && PRIMES[3] == 7
    ensures PRIMES[4] == 11 && PRIMES[5] == 13 && PRIMES[6] == 17 && PRIMES[7] == 19
  {
  }

  lemma CubeRoots0()
    ensures IsCubeRoot(0) && IsCubeRoot(1) && IsCubeRoot(2) && IsCubeRoot(3)
    ensures IsCubeRoot(4) && IsCubeRoot(5) && IsCubeRoot(6) && IsCubeRoot(7)
  {
    hide IsCubeRoot, K, PRIMES;
    Constants0();
    Primes0();
    CubeRootAt(0, 2, 0x428a2f98, 0x1_428a2f98);
    CubeRootAt(1, 3, 0x71374491, 0x1_71374491);
    CubeRootAt(2, 5, 0xb5c0fbcf, 0x1_b5c0fbcf);
    CubeRootAt(3, 7, 0xe9b5dba5, 0x1_e9b5dba5);
    CubeRootAt(4, 11, 0x3956c25b, 0x2_3956c25b);
    CubeRootAt(5, 13, 0x59f111f1, 0x2_59f111f1);
    CubeRootAt(6, 17, 0x923f82a4, 0x2_923f82a4);
    CubeRootAt(7, 19, 0xab1c5ed5, 0x2_ab1c5ed5);
  }

  lemma Constants8()
    ensures K[8] == 0xd807aa98 && K[9] == 0x12835b01 && K[10] == 0x243185be && K[11] == 0x550c7dc3
    ensures K[12] == 0x72be5d74 && K[13] == 0x80deb1fe && K[14] == 0x9bdc06a7 && K[15] == 0xc19bf174
  {
  }

  lemma Primes8()
    ensures PRIMES[8] == 23 && PRIMES[9] == 29 && PRIMES[10] == 31 && PRIMES[11] == 37
    ensures PRIMES[12] == 41 && PRIMES[13] == 43 && PRIMES[14] == 47 && PRIMES[15] == 53
  {
  }

  lemma CubeRoots8()
    ensures IsCubeRoot(8) && IsCubeRoot(9) && IsCubeRoot(10) && IsCubeRoot(11)
    ensures IsCubeRoot(12) && IsCubeRoot(13) && IsCubeRoot(14) && IsCubeRoot(15)
  {
    hide IsCubeRoot, K, PRIMES;
    Constants8();
    Primes8();
    CubeRootAt(8, 23, 0xd807aa98, 0x2_d807aa98);
    CubeRootAt(9, 29, 0x12835b01, 0x3_12835b01);
    CubeRootAt(10, 31, 0x243185be, 0x3_243185be);
    CubeRootAt(11, 37, 0x550c7dc3, 0x3_550c7dc3);
    CubeRootAt(12, 41, 0x72be5d74, 0x3_72be5d74);
    CubeRootAt(13, 43, 0x80deb1fe, 0x3_80deb1fe);
    CubeRootAt(14, 47, 0x9bdc06a7, 0x3_9bdc06a7);
    CubeRootAt(15, 53, 0xc19bf174, 0x3_c19bf174);
  }

  lemma Constants16()
    ensures K[16] == 0xe49b69c1 && K[17] == 0xefbe4786 && K[18] == 0x0fc19dc6 && K[19] == 0x240ca1cc
    ensures K[20] == 0x2de92c6f && K[21] == 0x4a7484aa && K[22] == 0x5cb0a9dc && K[23] == 0x76f988da
  {
  }

  lemma Primes16()
    ensures PRIMES[16] == 59 && PRIMES[17] == 61 && PRIMES[18] == 67 && PRIMES[19] == 71
    ensures PRIMES[20] == 73 && PRIMES[21] == 79 && PRIMES[22] == 83 && PRIMES[23] == 89
  {
  }

  lemma CubeRoots16()
    ensures IsCubeRoot(16) && IsCubeRoot(17) && IsCubeRoot(18) && IsCubeRoot(19)
    ensures IsCubeRoot(20) && IsCubeRoot(21) && IsCubeRoot(22) && IsCubeRoot(23)
  {
    hide IsCubeRoot, K, PRIMES;
    Constants16();
    Primes16();
    CubeRootAt(16, 59, 0xe49b69c1, 0x3_e49b69c1);
    CubeRootAt(17, 61, 0xefbe4786, 0x3_efbe4786);
    CubeRootAt(18, 67, 0x0fc19dc6, 0x4_0fc19dc6);
    CubeRootAt(19, 71, 0x240ca1cc, 0x4_240ca1cc);
    CubeRootAt(20, 73, 0x2de92c6f, 0x4_2de92c6f);
    CubeRootAt(21, 79, 0x4a7484aa, 0x4_4a7484aa);
    CubeRootAt(22, 83, 0x5cb0a9dc, 0x4_5cb0a9dc);
    CubeRootAt(23, 89, 0x76f988da, 0x4_76f988da);
  }

  lemma Constants24()
    ensures K[24] == 0x983e5152 && K[25] == 0xa831c66d && K[26] == 0xb00327c8 && K[27] == 0xbf597fc7
    ensures K[28] == 0xc6e00bf3 && K[29] == 0xd5a79147 && K[30] == 0x06ca6351 && K[31] == 0x14292967
  {
  }

  lemma Primes24()
    ensures PRIMES[24] == 97 && PRIMES[25] == 101 && PRIMES[26] == 103 && PRIMES[27] == 107
    ensures PRIMES[28] == 109 && PRIMES[29] == 113 && PRIMES[30] == 127 && PRIMES[31] == 131
  {
  }

  lemma CubeRoots24()
    ensures IsCubeRoot(24) && IsCubeRoot(25) && IsCubeRoot(26) && IsCubeRoot(27)
    ensures IsCubeRoot(28) && IsCubeRoot(29) && IsCubeRoot(30) && IsCubeRoot(31)
  {
    hide IsCubeRoot, K, PRIMES;
    Constants24();
    Primes24();
    CubeRootAt(24, 97, 0x983e5152, 0x4_983e5152);
    CubeRootAt(25, 101, 0xa831c66d, 0x4_a831c66d);
    CubeRootAt(26, 103, 0xb00327c8, 0x4_b00327c8);
    CubeRootAt(27, 107, 0xbf597fc7, 0x4_bf597fc7);
    CubeRootAt(28, 109, 0xc6e00bf3, 0x4_c6e00bf3);
    CubeRootAt(29, 113, 0xd5a79147, 0x4_d5a79147);
    CubeRootAt(30, 127, 0x06ca6351, 0x5_06ca6351);
    CubeRootAt(31, 131, 0x14292967, 0x5_14292967);
  }

  lemma Constants32()
    ensures K[32] == 0x27b70a85 && K[33] == 0x2e1b2138 && K[34] == 0x4d2c6dfc && K[35] == 0x53380d13
    ensures K[36] == 0x650a7354 && K[37] == 0x766a0abb && K[38] == 0x81c2c92e && K[39] == 0x92722c85
  {
  }

  lemma Primes32()
    ensures PRIMES[32] == 137 && PRIMES[33] == 139 && PRIMES[34] == 149 && PRIMES[35] == 151
    ensures PRIMES[36] == 157 && PRIMES[37] == 163 && PRIMES[38] == 167 && PRIMES[39] == 173
  {
  }

  lemma CubeRoots32()
    ensures IsCubeRoot(32) && IsCubeRoot(33) && IsCubeRoot(34) && IsCubeRoot(35)
    ensures IsCubeRoot(36) && IsCubeRoot(37) && IsCubeRoot(38) && IsCubeRoot(39)
  {
    hide IsCubeRoot, K, PRIMES;
    Constants32();
    Primes32();
    CubeRootAt(32, 137, 0x27b70a85, 0x5_27b70a85);
    CubeRootAt(33, 139, 0x2e1b2138, 0x5_2e1b2138);
    CubeRootAt(34, 149, 0x4d2c6dfc, 0x5_4d2c6dfc);
    CubeRootAt(35, 151, 0x53380d13, 0x5_53380d13);
    CubeRootAt(36, 157, 0x650a7354, 0x5_650a7354);
    CubeRootAt(37, 163, 0x766a0abb, 0x5_766a0abb);
    CubeRootAt(38, 167, 0x81c2c92e, 0x5_81c2c92e);
    CubeRootAt(39, 173, 0x92722c85, 0x5_92722c85);
  }

  lemma Constants40()
    ensures K[40] == 0xa2bfe8a1 && K[41] == 0xa81a664b && K[42] == 0xc24b8b70 && K[43] == 0xc76c51a3
    ensures K[44] == 0xd192e819 && K[45] == 0xd6990624 && K[46] == 0xf40e3585 && K[47] == 0x106aa070
  {
  }

  lemma Primes40()
    ensures PRIMES[40] == 179 && PRIMES[41] == 181 && PRIMES[42] == 191 && PRIMES[43] == 193
    ensures PRIMES[44] == 197 && PRIMES[45] == 199 && PRIMES[46] == 211 && PRIMES[47] == 223
  {
  }

  lemma CubeRoots40()
    ensures IsCubeRoot(40) && IsCubeRoot(41) && IsCubeRoot(42) && IsCubeRoot(43)
    ensures IsCubeRoot(44) && IsCubeRoot(45) && IsCubeRoot(46) && IsCubeRoot(47)
  {
    hide IsCubeRoot, K, PRIMES;
    Constants40();
    Primes40();
    CubeRootAt(40, 179, 0xa2bfe8a1, 0x5_a2bfe8a1);
    CubeRootAt(41, 181, 0xa81a664b, 0x5_a81a664b);
    CubeRootAt(42, 191, 0xc24b8b70, 0x5_c24b8b70);
    CubeRootAt(43, 193, 0xc76c51a3, 0x5_c76c51a3);
    CubeRootAt(44, 197, 0xd192e819, 0x5_d192e819);
    CubeRootAt(45, 199, 0xd6990624, 0x5_d6990624);
    CubeRootAt(46, 211, 0xf40e3585, 0x5_f40e3585);
    CubeRootAt(47, 223, 0x106aa070, 0x6_106aa070);
  }

  lemma Constants48()
    ensures K[48] == 0x19a4c116 && K[49] == 0x1e376c08 && K[50] == 0x2748774c && K[51] == 0x34b0bcb5
    ensures K[52] == 0x391c0cb3 && K[53] == 0x4ed8aa4a && K[54] == 0x5b9cca4f && K[55] == 0x682e6ff3
  {
  }

  lemma Primes48()
    ensures PRIMES[48] == 227 && PRIMES[49] == 229 && PRIMES[50] == 233 && PRIMES[51] == 239
    ensures PRIMES[52] == 241 && PRIMES[53] == 251 && PRIMES[54] == 257 && PRIMES[55] == 263
  {
  }

  lemma CubeRoots48()
    ensures IsCubeRoot(48) && IsCubeRoot(49) && IsCubeRoot(50) && IsCubeRoot(51)
    ensures IsCubeRoot(52) && IsCubeRoot(53) && IsCubeRoot(54) && IsCubeRoot(55)
  {
    hide IsCubeRoot, K, PRIMES;
    Constants48();
    Primes48();
    CubeRootAt(48, 227, 0x19a4c116, 0x6_19a4c116);
    CubeRootAt(49, 229, 0x1e376c08, 0x6_1e376c08);
    CubeRootAt(50, 233, 0x2748774c, 0x6_2748774c);
    CubeRootAt(51, 239, 0x34b0bcb5, 0x6_34b0bcb5);
    CubeRootAt(52, 241, 0x391c0cb3, 0x6_391c0cb3);
    CubeRootAt(53, 251, 0x4ed8aa4a, 0x6_4ed8aa4a);
    CubeRootAt(54, 257, 0x5b9cca4f, 0x6_5b9cca4f);
    CubeRootAt(55, 263, 0x682e6ff3, 0x6_682e6ff3);
  }

  lemma Constants56()
    ensures K[56] == 0x748f82ee && K[57] == 0x78a5636f && K[58] == 0x84c87814 && K[59] == 0x8cc70208
    ensures K[60] == 0x90befffa && K[61] == 0xa4506ceb && K[62] == 0xbef9a3f7 && K[63] == 0xc67178f2
  {
  }

  lemma Primes56()
    ensures PRIMES[56] == 269 && PRIMES[57] == 271 && PRIMES[58] == 277 && PRIMES[59] == 281
    ensures PRIMES[60] == 283 && PRIMES[61] == 293 && PRIMES[62] == 307 && PRIMES[63] == 311
  {
  }

  lemma CubeRoots56()
    ensures IsCubeRoot(56) && IsCubeRoot(57) && IsCubeRoot(58) && IsCubeRoot(59)
    ensures IsCubeRoot(60) && IsCubeRoot(61) && IsCubeRoot(62) && IsCubeRoot(63)
  {
    hide IsCubeRoot, K, PRIMES;
    Constants56();
    Primes56();
    CubeRootAt(56, 269, 0x748f82ee, 0x6_748f82ee);
    CubeRootAt(57, 271, 0x78a5636f, 0x6_78a5636f);
    CubeRootAt(58, 277, 0x84c87814, 0x6_84c87814);
    CubeRootAt(59, 281, 0x8cc70208, 0x6_8cc70208);
    CubeRootAt(60, 283, 0x90befffa, 0x6_90befffa);
    CubeRootAt(61, 293, 0xa4506ceb, 0x6_a4506ceb);
    CubeRootAt(62, 307, 0xbef9a3f7, 0x6_bef9a3f7);
    CubeRootAt(63, 311, 0xc67178f2, 0x6_c67178f2);
  }

  lemma ConstantsAreCubeRoots(t: nat)
    requires t < 64
    ensures IsCubeRoot(t)
  {
    hide IsCubeRoot;
    if t < 8 { CubeRoots0(); }
    else if t < 16 { CubeRoots8(); }
    else if t < 24 { CubeRoots16(); }
    else if t < 32 { CubeRoots24(); }
    else if t < 40 { CubeRoots32(); }
    else if t < 48 { CubeRoots40(); }
    else if t < 56 { CubeRoots48(); }
    else { CubeRoots56(); }
  }

  lemma SquareRootAt(t: nat, p: nat, w: Word, k: nat)
    requires t < 8 && PRIMES[t] == p < 25 && H0()[t] == w && k == SquareRoot(p) * TWO_32 + w as int
    requires k * k <= p * TWO_64 < (k + 1) * (k + 1)
    ensures IsSquareRoot(t)
  {
    hide PRIMES, H0, SquareRoot;
  }

  lemma InitialWords()
    ensures H0()[0] == 0x6a09e667 && H0()[1] == 0xbb67ae85 && H0()[2] == 0x3c6ef372 && H0()[3] == 0xa54ff53a
    ensures H0()[4] == 0x510e527f && H0()[5] == 0x9b05688c && H0()[6] == 0x1f83d9ab && H0()[7] == 0x5be0cd19
  {
  }

  lemma SquareRoots()
    ensures IsSquareRoot(0) && IsSquareRoot(1) && IsSquareRoot(2) && IsSquareRoot(3)
    ensures IsSquareRoot(4) && IsSquareRoot(5) && IsSquareRoot(6) && IsSquareRoot(7)
  {
    hide IsSquareRoot, H0, PRIMES;
    InitialWords();
    Primes0();
    SquareRootAt(0, 2, 0x6a09e667, 0x1_6a09e667);
    SquareRootAt(1, 3, 0xbb67ae85, 0x1_bb67ae85);
    SquareRootAt(2, 5, 0x3c6ef372, 0x2_3c6ef372);
    SquareRootAt(3, 7, 0xa54ff53a, 0x2_a54ff53a);
    SquareRootAt(4, 11, 0x510e527f, 0x3_510e527f);
    SquareRootAt(5, 13, 0x9b05688c, 0x3_9b05688c);
    SquareRootAt(6, 17, 0x1f83d9ab, 0x4_1f83d9ab);
    SquareRootAt(7, 19, 0x5be0cd19, 0x4_5be0cd19);
  }

  lemma InitialWordsAreSquareRoots(t: nat)
    requires t < 8
    ensures IsSquareRoot(t)
  {
    hide IsSquareRoot;
    SquareRoots();
  }

  // ---- The functions ----

  function Bit(x: Word, i: Word): bool
    requires i < 32
  {
    (x >> i) & 1 == 1
  }

  lemma RotrBits2(x: Word, i: Word)
    requires i < 32
    ensures Bit(Rotr(x, 2), i) == Bit(x, (i + 2) % 32)
  {
  }

  lemma RotrBits6(x: Word, i: Word)
    requires i < 32
    ensures Bit(Rotr(x, 6), i) == Bit(x, (i + 6) % 32)
  {
  }

  lemma RotrBits7(x: Word, i: Word)
    requires i < 32
    ensures Bit(Rotr(x, 7), i) == Bit(x, (i + 7) % 32)
  {
  }

  lemma RotrBits11(x: Word, i: Word)
    requires i < 32
    ensures Bit(Rotr(x, 11), i) == Bit(x, (i + 11) % 32)
  {
  }

  lemma RotrBits13(x: Word, i: Word)
    requires i < 32
    ensures Bit(Rotr(x, 13), i) == Bit(x, (i + 13) % 32)
  {
  }

  lemma RotrBits17(x: Word, i: Word)
    requires i < 32
    ensures Bit(Rotr(x, 17), i) == Bit(x, (i + 17) % 32)
  {
  }

  lemma RotrBits18(x: Word, i: Word)
    requires i < 32
    ensures Bit(Rotr(x, 18), i) == Bit(x, (i + 18) % 32)
  {
  }

  lemma RotrBits19(x: Word, i: Word)
    requires i < 32
    ensures Bit(Rotr(x, 19), i) == Bit(x, (i + 19) % 32)
  {
  }

  lemma RotrBits22(x: Word, i: Word)
    requires i < 32
    ensures Bit(Rotr(x, 22), i) == Bit(x, (i + 22) % 32)
  {
  }

  lemma RotrBits25(x: Word, i: Word)
    requires i < 32
    ensures Bit(Rotr(x, 25), i) == Bit(x, (i + 25) % 32)
  {
  }

  /** Rotation by n, for each amount that SHA-256 uses: bit i of the result is bit i + n, around the end. */
  lemma RotrBits(x: Word, n: Word, i: Word)
    requires n in {2, 6, 7, 11, 13, 17, 18, 19, 22, 25} && i < 32
    ensures Bit(Rotr(x, n), i) == Bit(x, (i + n) % 32)
  {
    hide Bit, Rotr;
    if n == 2 { RotrBits2(x, i); }
    else if n == 6 { RotrBits6(x, i); }
    else if n == 7 { RotrBits7(x, i); }
    else if n == 11 { RotrBits11(x, i); }
    else if n == 13 { RotrBits13(x, i); }
    else if n == 17 { RotrBits17(x, i); }
    else if n == 18 { RotrBits18(x, i); }
    else if n == 19 { RotrBits19(x, i); }
    else if n == 22 { RotrBits22(x, i); }
    else if n == 25 { RotrBits25(x, i); }
  }

  /** Where the bits of x under a mask are set, Ch has those of y, and where they are clear those of z. */
  lemma ChUnderMask(x: Word, y: Word, z: Word, m: Word)
    ensures x & m == m ==> Ch(x, y, z) & m == y & m
    ensures x & m == 0 ==> Ch(x, y, z) & m == z & m
  {
  }

  lemma MajFirstTwo(x: Word, y: Word, z: Word, m: Word)
    requires x & m == y & m
    ensures Maj(x, y, z) & m == x & m
  {
  }

  lemma MajOuterTwo(x: Word, y: Word, z: Word, m: Word)
    requires x & m == z & m
    ensures Maj(x, y, z) & m == x & m
  {
  }

  lemma MajLastTwo(x: Word, y: Word, z: Word, m: Word)
    requires y & m == z & m
    ensures Maj(x, y, z) & m == y & m
  {
  }

  /** Where two of the words agree under a mask, Maj is what they agree on. */
  lemma MajUnderMask(x: Word, y: Word, z: Word, m: Word)
    ensures x & m == y & m || x & m == z & m ==> Maj(x, y, z) & m == x & m
    ensures y & m == z & m ==> Maj(x, y, z) & m == y & m
  {
    hide Maj;
    if x & m == y & m { MajFirstTwo(x, y, z, m); }
    if x & m == z & m { MajOuterTwo(x, y, z, m); }
    if y & m == z & m { MajLastTwo(x, y, z, m); }
  }

  // ---- Chaining ----

  /** The blocks of m folded from the front, starting from h. */
  function Chained(h: Chain, m: seq<byte>): Chain
    requires |m| % 64 == 0
    decreases |m|
  {
    if m == [] then h else Chained(Compress(h, m[..64]), m[64..])
  }

  lemma {:induction false} ChainedJoins(h: Chain, x: seq<byte>, y: seq<byte>)
    requires |x| % 64 == 0 && |y| % 64 == 0
    ensures Chained(h, x + y) == Chained(Chained(h, x), y)
    decreases |x|
  {
    hide Compress;
    if x == [] {
      assert x + y == y;
    } else {
      assert (x + y)[..64] == x[..64] && (x + y)[64..] == x[64..] + y;
      ChainedJoins(Compress(h, x[..64]), x[64..], y);
    }
  }

  /** Each block of a message is compressed once, in order, into the value that the block before it left. */
  lemma {:induction false} HashBlocksIsChained(m: seq<byte>)
    requires |m| % 64 == 0
    ensures HashBlocks(m) == Chained(H0(), m)
  {
    hide Compress, H0;
    if m != [] {
      var init, last := m[..|m| - 64], m[|m| - 64..];
      HashBlocksIsChained(init);
      assert m == init + last && last[..64] == last && last[64..] == [];
      ChainedJoins(H0(), init, last);
    }
  }

  /** The padding: the message, one set bit, zeros, and the bit length as a 64-bit number with its high byte first. */
  lemma PaddingOf(m: seq<byte>)
    requires 8 * |m| < TWO_64
    ensures
      var p, n := Pad(m), |Pad(m)|;
      && n % 64 == 0 && |m| + 9 <= n < |m| + 73
      && p[..|m|] == m && p[|m|] == 0x80 && (forall i :: |m| < i < n - 8 ==> p[i] == 0)
      && Value(p[n - 8..]) == 8 * |m|
  {
    hide BE64, Value;
    var p, n := Pad(m), |Pad(m)|;
    assert p[n - 8..] == BE64(8 * |m|);
    LengthField(8 * |m|);
  }

  /** Bytes as a number, high byte first. */
  function Value(b: seq<byte>): nat {
    if b == [] then 0 else 256 * Value(b[..|b| - 1]) + b[|b| - 1]
  }

  lemma {:induction false} FieldValue(n: nat, k: nat)
    requires k <= 8
    ensures Value(BE64(n)[..k]) == n / Pow256(8 - k) % Pow256(k)
  {
    if k == 0 {
      assert n / Pow256(8) % 1 == 0;
    } else {
      var b := BE64(n)[..k];
      FieldValue(n, k - 1);
      assert b[..k - 1] == BE64(n)[..k - 1];
      assert b[k - 1] == n / Pow256(8 - k) % 256;
      TwoDigits(n, Pow256(8 - k), Pow256(k - 1));
    }
  }

  /** The digit at d and the digits above it. */
  lemma TwoDigits(n: nat, d: nat, m: nat)
    requires d > 0 && m > 0
    ensures 256 * d > 0 && 256 * m > 0
    ensures n / (256 * d) == n / d / 256
    ensures 256 * (n / (256 * d) % m) + n / d % 256 == n / d % (256 * m)
  {
    DigitAbove(n, d);
    DigitBelow(n / d, m);
  }

  lemma DigitAbove(n: nat, d: nat)
    requires d > 0
    ensures 256 * d > 0 && n / (256 * d) == n / d / 256
  {
    var q := n / d;
    var r, s := q % 256, q / 256;
    assert n == q * d + n % d && q == 256 * s + r;
    assert q * d == s * (256 * d) + r * d;
    MulMonotone(r, 256, d);
    DivModUnique(s, 256 * d, r * d + n % d);
  }

  lemma DigitBelow(q: nat, m: nat)
    requires m > 0
    ensures 256 * m > 0 && 256 * (q / 256 % m) + q % 256 == q % (256 * m)
  {
    var s := q / 256;
    var u, v := s / m, s % m;
    assert s == u * m + v;
    assert q == u * (256 * m) + (256 * v + q % 256);
    DivModUnique(u, 256 * m, 256 * v + q % 256);
  }

  lemma LengthField(n: nat)
    requires n < TWO_64
    ensures Value(BE64(n)) == n
  {
    FieldValue(n, 8);
    assert BE64(n)[..8] == BE64(n);
    assert Pow256(0) == 1 && Pow256(4) == 0x1_0000_0000 && Pow256(8) == TWO_64;
    DivModUnique(0, TWO_64, n);
  }
}
