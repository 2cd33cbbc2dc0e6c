/** What fixes the constants and rotations of SHA-256: the roots behind its tables, and a published digest. */
module Sha256Values {
  import opened Modular
  import opened Words
  import opened Bits
  import opened Sha256

  // ----- The first primes -----

  /** No prime up to 17 divides n, n itself apart; below 19^2 this is being prime. */
  predicate Sieved(n: nat) {
    && n >= 2
    && (n == 2 || n % 2 != 0) && (n == 3 || n % 3 != 0) && (n == 5 || n % 5 != 0) && (n == 7 || n % 7 != 0)
    && (n == 11 || n % 11 != 0) && (n == 13 || n % 13 != 0) && (n == 17 || n % 17 != 0)
  }

  lemma SievedIsPrime(n: nat)
    requires n < 361
    ensures Sieved(n) <==> IsPrime(n)
  {
    if Sieved(n) {
      forall d | 1 < d < n ensures n % d != 0 {
        if n % d == 0 {
          Cofactor(n, d);
          if d < 19 { HasFactor(n, d, n / d); } else { HasFactor(n, n / d, d); }
        }
      }
    }
  }

  lemma Cofactor(n: nat, d: nat)
    requires 1 < d < n < 361 && n % d == 0
    ensures n == d * (n / d) && n / d > 1 && (d < 19 || n / d < 19)
  {
    var e := n / d;
    assert n == d * e;
    if d >= 19 && e >= 19 { MulLe(19, d, e); }
  }

  lemma HasFactor(n: nat, d: nat, e: nat)
    requires n == d * e && 1 < d < 19 && e > 1
    ensures !Sieved(n)
  {
    var q := if d % 2 == 0 then 2 else if d % 3 == 0 then 3 else if d % 5 == 0 then 5 else d;
    assert q == 2 || q == 3 || q == 5 || q == 7 || q == 11 || q == 13 || q == 17;
    DividesProduct(q, d, e);
    MulLe(2, e, d);
  }

  /** The primes below n in order. */
  function PrimesBelow(n: nat): seq<nat> {
    if n == 0 then [] else PrimesBelow(n - 1) + if Sieved(n - 1) then [n - 1] else []
  }

  lemma {:induction false} PrimesBelowAre(n: nat, p: nat)
    requires n <= 361
    ensures p in PrimesBelow(n) <==> p < n && IsPrime(p)
  {
    hide IsPrime, Sieved;
    if n > 0 {
      PrimesBelowAre(n - 1, p);
      SievedIsPrime(n - 1);
    }
  }

  /** Six numbers further: the primes among them are prime to 6. */
  lemma Six(n: nat, found: seq<nat>)
    requires n >= 6 && n % 6 == 0
    requires found == (if Sieved(n + 1) then [n + 1] else []) + (if Sieved(n + 5) then [n + 5] else [])
    ensures PrimesBelow(n + 6) == PrimesBelow(n) + found
  {
    hide PrimesBelow, Sieved;
    SixDivides(n);
    EvenOrTriple(n); EvenOrTriple(n + 2); EvenOrTriple(n + 3); EvenOrTriple(n + 4);
    Next(n); Next(n + 1); Next(n + 2); Next(n + 3); Next(n + 4); Next(n + 5);
  }

  lemma SixDivides(n: nat)
    requires n % 6 == 0
    ensures n % 2 == 0 && n % 3 == 0 && (n + 2) % 2 == 0 && (n + 3) % 3 == 0 && (n + 4) % 2 == 0
  {
    var m := n / 6;
    RemainderUnique(n, 3 * m, 2, 0);
    RemainderUnique(n, 2 * m, 3, 0);
    RemainderUnique(n + 2, 3 * m + 1, 2, 0);
    RemainderUnique(n + 3, 2 * m + 1, 3, 0);
    RemainderUnique(n + 4, 3 * m + 2, 2, 0);
  }

  lemma EvenOrTriple(n: nat)
    requires n > 3 && (n % 2 == 0 || n % 3 == 0)
    ensures !Sieved(n)
  {}

  lemma Next(n: nat)
    ensures PrimesBelow(n + 1) == PrimesBelow(n) + if Sieved(n) then [n] else []
  {
    hide Sieved;
  }

  const PRIMES: seq<nat> :=
    [2, 3, 5] +
    [7, 11, 13, 17, 19, 23, 29, 31] +
    [37, 41, 43, 47, 53, 59, 61] +
    [67, 71, 73, 79, 83, 89] +
    [97, 101, 103, 107, 109, 113] +
    [127, 131, 137, 139, 149, 151] +
    [157, 163, 167, 173, 179, 181] +
    [191, 193, 197, 199, 211] +
    [223, 227, 229, 233, 239, 241] +
    [251, 257, 263, 269, 271] +
    [277, 281, 283, 293, 307, 311]

  lemma Primes6()
    ensures PrimesBelow(36) == PrimesBelow(6) + [7, 11, 13, 17, 19, 23, 29, 31]
  {
    hide PrimesBelow;
    Six(6, [7, 11]); Six(12, [13, 17]); Six(18, [19, 23]); Six(24, [29]); Six(30, [31]);
  }

  lemma Primes36()
    ensures PrimesBelow(66) == PrimesBelow(36) + [37, 41, 43, 47, 53, 59, 61]
  {
    hide PrimesBelow;
    Six(36, [37, 41]); Six(42, [43, 47]); Six(48, [53]); Six(54, [59]); Six(60, [61]);
  }

  lemma Primes66()
    ensures PrimesBelow(96) == PrimesBelow(66) + [67, 71, 73, 79, 83, 89]
  {
    hide PrimesBelow;
    Six(66, [67, 71]); Six(72, [73]); Six(78, [79, 83]); Six(84, [89]); Six(90, []);
  }

  lemma Primes96()
    ensures PrimesBelow(126) == PrimesBelow(96) + [97, 101, 103, 107, 109, 113]
  {
    hide PrimesBelow;
    Six(96, [97, 101]); Six(102, [103, 107]); Six(108, [109, 113]); Six(114, []); Six(120, []);
  }

  lemma Primes126()
    ensures PrimesBelow(156) == PrimesBelow(126) + [127, 131, 137, 139, 149, 151]
  {
    hide PrimesBelow;
    Six(126, [127, 131]); Six(132, [137]); Six(138, [139]); Six(144, [149]); Six(150, [151]);
  }

  lemma Primes156()
    ensures PrimesBelow(186) == PrimesBelow(156) + [157, 163, 167, 173, 179, 181]
  {
    hide PrimesBelow;
    Six(156, [157]); Six(162, [163, 167]); Six(168, [173]); Six(174, [179]); Six(180, [181]);
  }

  lemma Primes186()
    ensures PrimesBelow(216) == PrimesBelow(186) + [191, 193, 197, 199, 211]
  {
    hide PrimesBelow;
    Six(186, [191]); Six(192, [193, 197]); Six(198, [199]); Six(204, []); Six(210, [211]);
  }

  lemma Primes216()
    ensures PrimesBelow(246) == PrimesBelow(216) + [223, 227, 229, 233, 239, 241]
  {
    hide PrimesBelow;
    Six(216, []); Six(222, [223, 227]); Six(228, [229, 233]); Six(234, [239]); Six(240, [241]);
  }

  lemma Primes246()
    ensures PrimesBelow(276) == PrimesBelow(246) + [251, 257, 263, 269, 271]
  {
    hide PrimesBelow;
    Six(246, [251]); Six(252, [257]); Six(258, [263]); Six(264, [269]); Six(270, [271]);
  }

  lemma Primes276()
    ensures PrimesBelow(312) == PrimesBelow(276) + [277, 281, 283, 293, 307, 311]
  {
    hide PrimesBelow;
    Six(276, [277, 281]); Six(282, [283]); Six(288, [293]); Six(294, []); Six(300, []); Six(306, [307, 311]);
  }

  lemma InOrder()
    ensures PRIMES == PrimesBelow(312)
  {
    assert PrimesBelow(6) == [2, 3, 5];
    hide PrimesBelow;
    Primes6(); Primes36(); Primes66(); Primes96(); Primes126();
    Primes156(); Primes186(); Primes216(); Primes246(); Primes276();
  }

  lemma {:induction false} Ascending(n: nat)
    ensures forall i :: 0 <= i < |PrimesBelow(n)| ==> PrimesBelow(n)[i] < n
    ensures forall i, j :: 0 <= i < j < |PrimesBelow(n)| ==> PrimesBelow(n)[i] < PrimesBelow(n)[j]
  {
    hide Sieved;
    if n > 0 { Ascending(n - 1); }
  }

  /** PRIMES are the first 64 primes in ascending order. */
  lemma FirstPrimes(p: nat, i: nat, j: nat)
    ensures |PRIMES| == 64
    ensures p < 312 ==> (p in PRIMES <==> IsPrime(p))
    ensures i < j < 64 ==> PRIMES[i] < PRIMES[j] < 312
  {
    InOrder();
    hide IsPrime, PrimesBelow;
    Ascending(312);
    if p < 312 { PrimesBelowAre(312, p); }
  }

  // ----- The tables -----

  /** r holds the cube root of p to 32 binary places. */
  predicate IsCubeRoot(p: nat, r: nat) {
    r * r * r <= p * 0x1_0000_0000_0000_0000_0000_0000 < (r + 1) * (r + 1) * (r + 1)
  }

  predicate IsSquareRoot(p: nat, r: nat) { r * r <= p * 0x1_0000_0000_0000_0000 < (r + 1) * (r + 1) }

  /** x is the first 32 fractional bits of the cube root of p. */
  ghost predicate CubeRootBits(p: nat, x: Word) {
    exists a: nat :: IsCubeRoot(p, a * 0x1_0000_0000 + x as nat)
  }

  ghost predicate SquareRootBits(p: nat, x: Word) {
    exists a: nat :: IsSquareRoot(p, a * 0x1_0000_0000 + x as nat)
  }

  lemma Cube(t: nat, p: nat, a: nat, x: Word, r: nat)
    requires t < 64 && PRIMES[t] == p && K[t] == x && r == a * 0x1_0000_0000 + x as nat && IsCubeRoot(p, r)
    ensures CubeRootBits(PRIMES[t], K[t])
  {}

  lemma Square(t: nat, p: nat, a: nat, x: Word, r: nat)
    requires t < 8 && PRIMES[t] == p && H0[t] == x && r == a * 0x1_0000_0000 + x as nat && IsSquareRoot(p, r)
    ensures SquareRootBits(PRIMES[t], H0[t])
  {}

  lemma Cubes0()
    ensures forall t :: 0 <= t < 4 ==> CubeRootBits(PRIMES[t], K[t])
  {
    hide CubeRootBits;
    Cube(0, 2, 1, 0x428A2F98, 0x1_428A_2F98);
    Cube(1, 3, 1, 0x71374491, 0x1_7137_4491);
    Cube(2, 5, 1, 0xB5C0FBCF, 0x1_B5C0_FBCF);
    Cube(3, 7, 1, 0xE9B5DBA5, 0x1_E9B5_DBA5);
  }

  lemma Cubes1()
    ensures forall t :: 4 <= t < 8 ==> CubeRootBits(PRIMES[t], K[t])
  {
    hide CubeRootBits;
    Cube(4, 11, 2, 0x3956C25B, 0x2_3956_C25B);
    Cube(5, 13, 2, 0x59F111F1, 0x2_59F1_11F1);
    Cube(6, 17, 2, 0x923F82A4, 0x2_923F_82A4);
    Cube(7, 19, 2, 0xAB1C5ED5, 0x2_AB1C_5ED5);
  }

  lemma Cubes2()
    ensures forall t :: 8 <= t < 12 ==> CubeRootBits(PRIMES[t], K[t])
  {
    hide CubeRootBits;
    Cube(8, 23, 2, 0xD807AA98, 0x2_D807_AA98);
    Cube(9, 29, 3, 0x12835B01, 0x3_1283_5B01);
    Cube(10, 31, 3, 0x243185BE, 0x3_2431_85BE);
    Cube(11, 37, 3, 0x550C7DC3, 0x3_550C_7DC3);
  }

  lemma Cubes3()
    ensures forall t :: 12 <= t < 16 ==> CubeRootBits(PRIMES[t], K[t])
  {
    hide CubeRootBits;
    Cube(12, 41, 3, 0x72BE5D74, 0x3_72BE_5D74);
    Cube(13, 43, 3, 0x80DEB1FE, 0x3_80DE_B1FE);
    Cube(14, 47, 3, 0x9BDC06A7, 0x3_9BDC_06A7);
    Cube(15, 53, 3, 0xC19BF174, 0x3_C19B_F174);
  }

  lemma Cubes4()
    ensures forall t :: 16 <= t < 20 ==> CubeRootBits(PRIMES[t], K[t])
  {
    hide CubeRootBits;
    Cube(16, 59, 3, 0xE49B69C1, 0x3_E49B_69C1);
    Cube(17, 61, 3, 0xEFBE4786, 0x3_EFBE_4786);
    Cube(18, 67, 4, 0x0FC19DC6, 0x4_0FC1_9DC6);
    Cube(19, 71, 4, 0x240CA1CC, 0x4_240C_A1CC);
  }

  lemma Cubes5()
    ensures forall t :: 20 <= t < 24 ==> CubeRootBits(PRIMES[t], K[t])
  {
    hide CubeRootBits;
    Cube(20, 73, 4, 0x2DE92C6F, 0x4_2DE9_2C6F);
    Cube(21, 79, 4, 0x4A7484AA, 0x4_4A74_84AA);
    Cube(22, 83, 4, 0x5CB0A9DC, 0x4_5CB0_A9DC);
    Cube(23, 89, 4, 0x76F988DA, 0x4_76F9_88DA);
  }

  lemma Cubes6()
    ensures forall t :: 24 <= t < 28 ==> CubeRootBits(PRIMES[t], K[t])
  {
    hide CubeRootBits;
    Cube(24, 97, 4, 0x983E5152, 0x4_983E_5152);
    Cube(25, 101, 4, 0xA831C66D, 0x4_A831_C66D);
    Cube(26, 103, 4, 0xB00327C8, 0x4_B003_27C8);
    Cube(27, 107, 4, 0xBF597FC7, 0x4_BF59_7FC7);
  }

  lemma Cubes7()
    ensures forall t :: 28 <= t < 32 ==> CubeRootBits(PRIMES[t], K[t])
  {
    hide CubeRootBits;
    Cube(28, 109, 4, 0xC6E00BF3, 0x4_C6E0_0BF3);
    Cube(29, 113, 4, 0xD5A79147, 0x4_D5A7_9147);
    Cube(30, 127, 5, 0x06CA6351, 0x5_06CA_6351);
    Cube(31, 131, 5, 0x14292967, 0x5_1429_2967);
  }

  lemma Cubes8()
    ensures forall t :: 32 <= t < 36 ==> CubeRootBits(PRIMES[t], K[t])
  {
    hide CubeRootBits;
    Cube(32, 137, 5, 0x27B70A85, 0x5_27B7_0A85);
    Cube(33, 139, 5, 0x2E1B2138, 0x5_2E1B_2138);
    Cube(34, 149, 5, 0x4D2C6DFC, 0x5_4D2C_6DFC);
    Cube(35, 151, 5, 0x53380D13, 0x5_5338_0D13);
  }

  lemma Cubes9()
    ensures forall t :: 36 <= t < 40 ==> CubeRootBits(PRIMES[t], K[t])
  {
    hide CubeRootBits;
    Cube(36, 157, 5, 0x650A7354, 0x5_650A_7354);
    Cube(37, 163, 5, 0x766A0ABB, 0x5_766A_0ABB);
    Cube(38, 167, 5, 0x81C2C92E, 0x5_81C2_C92E);
    Cube(39, 173, 5, 0x92722C85, 0x5_9272_2C85);
  }

  lemma Cubes10()
    ensures forall t :: 40 <= t < 44 ==> CubeRootBits(PRIMES[t], K[t])
  {
    hide CubeRootBits;
    Cube(40, 179, 5, 0xA2BFE8A1, 0x5_A2BF_E8A1);
    Cube(41, 181, 5, 0xA81A664B, 0x5_A81A_664B);
    Cube(42, 191, 5, 0xC24B8B70, 0x5_C24B_8B70);
    Cube(43, 193, 5, 0xC76C51A3, 0x5_C76C_51A3);
  }

  lemma Cubes11()
    ensures forall t :: 44 <= t < 48 ==> CubeRootBits(PRIMES[t], K[t])
  {
    hide CubeRootBits;
    Cube(44, 197, 5, 0xD192E819, 0x5_D192_E819);
    Cube(45, 199, 5, 0xD6990624, 0x5_D699_0624);
    Cube(46, 211, 5, 0xF40E3585, 0x5_F40E_3585);
    Cube(47, 223, 6, 0x106AA070, 0x6_106A_A070);
  }

  lemma Cubes12()
    ensures forall t :: 48 <= t < 52 ==> CubeRootBits(PRIMES[t], K[t])
  {
    hide CubeRootBits;
    Cube(48, 227, 6, 0x19A4C116, 0x6_19A4_C116);
    Cube(49, 229, 6, 0x1E376C08, 0x6_1E37_6C08);
    Cube(50, 233, 6, 0x2748774C, 0x6_2748_774C);
    Cube(51, 239, 6, 0x34B0BCB5, 0x6_34B0_BCB5);
  }

  lemma Cubes13()
    ensures forall t :: 52 <= t < 56 ==> CubeRootBits(PRIMES[t], K[t])
  {
    hide CubeRootBits;
    Cube(52, 241, 6, 0x391C0CB3, 0x6_391C_0CB3);
    Cube(53, 251, 6, 0x4ED8AA4A, 0x6_4ED8_AA4A);
    Cube(54, 257, 6, 0x5B9CCA4F, 0x6_5B9C_CA4F);
    Cube(55, 263, 6, 0x682E6FF3, 0x6_682E_6FF3);
  }

  lemma Cubes14()
    ensures forall t :: 56 <= t < 60 ==> CubeRootBits(PRIMES[t], K[t])
  {
    hide CubeRootBits;
    Cube(56, 269, 6, 0x748F82EE, 0x6_748F_82EE);
    Cube(57, 271, 6, 0x78A5636F, 0x6_78A5_636F);
    Cube(58, 277, 6, 0x84C87814, 0x6_84C8_7814);
    Cube(59, 281, 6, 0x8CC70208, 0x6_8CC7_0208);
  }

  lemma Cubes15()
    ensures forall t :: 60 <= t < 64 ==> CubeRootBits(PRIMES[t], K[t])
  {
    hide CubeRootBits;
    Cube(60, 283, 6, 0x90BEFFFA, 0x6_90BE_FFFA);
    Cube(61, 293, 6, 0xA4506CEB, 0x6_A450_6CEB);
    Cube(62, 307, 6, 0xBEF9A3F7, 0x6_BEF9_A3F7);
    Cube(63, 311, 6, 0xC67178F2, 0x6_C671_78F2);
  }

  /** K holds the cube roots of the first 64 primes, the initial digest the square roots of the first eight. */
  lemma Tables(t: nat)
    ensures t < 64 ==> CubeRootBits(PRIMES[t], K[t])
    ensures t < 8 ==> SquareRootBits(PRIMES[t], H0[t])
  {
    hide CubeRootBits, SquareRootBits;
    Cubes0(); Cubes1(); Cubes2(); Cubes3(); Cubes4(); Cubes5(); Cubes6(); Cubes7();
    Cubes8(); Cubes9(); Cubes10(); Cubes11(); Cubes12(); Cubes13(); Cubes14(); Cubes15();
    Squares0(); Squares1();
  }

  lemma Squares0()
    ensures forall t :: 0 <= t < 4 ==> SquareRootBits(PRIMES[t], H0[t])
  {
    hide SquareRootBits;
    Square(0, 2, 1, 0x6A09E667, 0x1_6A09_E667);
    Square(1, 3, 1, 0xBB67AE85, 0x1_BB67_AE85);
    Square(2, 5, 2, 0x3C6EF372, 0x2_3C6E_F372);
    Square(3, 7, 2, 0xA54FF53A, 0x2_A54F_F53A);
  }

  lemma Squares1()
    ensures forall t :: 4 <= t < 8 ==> SquareRootBits(PRIMES[t], H0[t])
  {
    hide SquareRootBits;
    Square(4, 11, 3, 0x510E527F, 0x3_510E_527F);
    Square(5, 13, 3, 0x9B05688C, 0x3_9B05_688C);
    Square(6, 17, 4, 0x1F83D9AB, 0x4_1F83_D9AB);
    Square(7, 19, 4, 0x5BE0CD19, 0x4_5BE0_CD19);
  }

  // ----- The digest of a message -----

  /** The one block of the message `abc`. */
  const ABC: seq<u8> := [97, 98, 99]

  ghost function AbcBlock(): Block { ABC + [0x80] + seq(59, _ => 0) + [24] }

  lemma AbcPadded()
    ensures Pad(ABC) == AbcBlock()
  {
    hide BeVal;
    LowBytes(24);
    assert LengthField(3) == [0, 0, 0, 0, 0, 0, 0, 24] by { EightBytes(); }
    assert Zeros(52) + [0, 0, 0, 0, 0, 0, 0] == seq<u8>(59, _ => 0);
  }

  lemma EightBytes()
    ensures BeBytes(24, 8) == [0, 0, 0, 0, 0, 0, 0, 24]
  {
    LowBytes(0);
    assert LeBytes(24, 8) == [24] + LeBytes(0, 7);
    assert LeBytes(0, 7) == [0] + ([0] + ([0] + LeBytes(0, 4)));
  }

  /** The four low bytes of a number. */
  lemma LowBytes(n: nat)
    ensures LeBytes(n, 4) == [(n % 256) as u8, (n / 256 % 256) as u8, (n / 256 / 256 % 256) as u8,
                              (n / 256 / 256 / 256 % 256) as u8]
  {
    var (a, b, c) := (n / 256, n / 256 / 256, n / 256 / 256 / 256);
    assert LeBytes(c, 1) == [(c % 256) as u8] + LeBytes(c / 256, 0);
    assert LeBytes(b, 2) == [(b % 256) as u8] + LeBytes(c, 1);
    assert LeBytes(a, 3) == [(a % 256) as u8] + LeBytes(b, 2);
  }

  /** The schedule of the block, and the working variables after each round. */
  ghost predicate Run(S: seq<Word>, V: seq<Working>) {
    && |S| == 64 && |V| == 65
    && (forall t {:trigger Schedule(AbcBlock(), t)} :: 0 <= t < 64 ==> S[t] == Schedule(AbcBlock(), t))
    && (forall t {:trigger Rounds(H0, AbcBlock(), t)} :: 0 <= t < 65 ==> V[t] == Rounds(H0, AbcBlock(), t))
  }

  ghost predicate At(S: seq<Word>, t: nat, a: Word, b: Word, c: Word, d: Word, e: Word, f: Word, g: Word, h: Word) {
    && |S| >= t + 8
    && S[t] == a && S[t + 1] == b && S[t + 2] == c && S[t + 3] == d
    && S[t + 4] == e && S[t + 5] == f && S[t + 6] == g && S[t + 7] == h
  }

  ghost predicate After(V: seq<Working>, t: nat, a: Word, b: Word, c: Word, d: Word, e: Word, f: Word, g: Word,
                        h: Word)
  {
    |V| > t && V[t] == Working(a, b, c, d, e, f, g, h)
  }

  lemma FirstWords(S: seq<Word>, V: seq<Working>)
    requires Run(S, V)
    ensures At(S, 0, 0x61626380, 0, 0, 0, 0, 0, 0, 0) && At(S, 8, 0, 0, 0, 0, 0, 0, 0, 24)
  {
    hide WordOf, Schedule, Rounds;
    WordsOfBlock();
    forall t | 0 <= t < 16 ensures S[t] == if t == 0 then 0x61626380 else if t == 15 then 24 else 0 {
      ScheduleStart(AbcBlock(), t);
    }
  }

  lemma NextWord(S: seq<Word>, V: seq<Working>, t: nat, a: Word, b: Word, c: Word, d: Word, w: Word)
    requires Run(S, V) && 16 <= t < 64 && |S| == 64
    requires S[t - 16] == a && S[t - 15] == b && S[t - 7] == c && S[t - 2] == d
    requires Plus(Plus(Plus(a, SmallSigma0(b)), c), SmallSigma1(d)) == w
    ensures S[t] == w
  {
    hide Plus, SmallSigma0, SmallSigma1, Schedule, Rounds;
    ScheduleNext(AbcBlock(), t);
  }

  lemma WordsOfBlock()
    ensures WordOf([97, 98, 99, 128]) == 0x61626380 && WordOf([0, 0, 0, 0]) == 0 && WordOf([0, 0, 0, 24]) == 24
  {
    hide WordOf, BytesOf;
    BytesOfWords();
    WordOfBytes(0x61626380);
    WordOfBytes(0);
    WordOfBytes(24);
  }

  lemma BytesOfWords()
    ensures BytesOf(0x61626380) == [97, 98, 99, 128] && BytesOf(0) == [0, 0, 0, 0] && BytesOf(24) == [0, 0, 0, 24]
  {
    assert (0x61626380 as Word) as int == 0x61626380 && (0 as Word) as int == 0 && (24 as Word) as int == 24;
    LowBytes(0x61626380);
    LowBytes(0);
    LowBytes(24);
  }

  /** One round; all but two of the working variables only move on. */
  lemma OneRound(S: seq<Word>, V: seq<Working>, t: nat, a: Word, b: Word, c: Word, d: Word, e: Word, f: Word, g: Word,
                 h: Word, k: Word, w: Word, a': Word, e': Word)
    requires Run(S, V) && t < 64 && |S| == 64 && S[t] == w && K[t] == k
    requires After(V, t, a, b, c, d, e, f, g, h)
    requires Round(Working(a, b, c, d, e, f, g, h), k, w) == Working(a', a, b, c, e', e, f, g)
    ensures After(V, t + 1, a', a, b, c, e', e, f, g)
  {
    hide Round, Rounds, Schedule;
    RoundsStep(H0, AbcBlock(), t);
  }

  lemma Lengths(S: seq<Word>, V: seq<Working>)
    requires Run(S, V)
    ensures |S| == 64 && |V| == 65
  {}

  lemma Words16(S: seq<Word>, V: seq<Working>)
    requires Run(S, V)
    requires At(S, 0, 0x61626380, 0, 0, 0, 0, 0, 0, 0)
    requires At(S, 8, 0, 0, 0, 0, 0, 0, 0, 24)
    ensures At(S, 16, 0x61626380, 0x000F0000, 0x7DA86405, 0x600003C6, 0x3E9D7B78, 0x0183FC00, 0x12DCBFDB, 0xE2E2C38E)
  {
    hide Run;
    Lengths(S, V);
    NextWord(S, V, 16, 0x61626380, 0, 0, 0, 0x61626380);
    NextWord(S, V, 17, 0, 0, 0, 24, 0x000F0000);
    NextWord(S, V, 18, 0, 0, 0, 0x61626380, 0x7DA86405);
    NextWord(S, V, 19, 0, 0, 0, 0x000F0000, 0x600003C6);
    NextWord(S, V, 20, 0, 0, 0, 0x7DA86405, 0x3E9D7B78);
    NextWord(S, V, 21, 0, 0, 0, 0x600003C6, 0x0183FC00);
    NextWord(S, V, 22, 0, 0, 24, 0x3E9D7B78, 0x12DCBFDB);
    NextWord(S, V, 23, 0, 0, 0x61626380, 0x0183FC00, 0xE2E2C38E);
  }

  lemma Words24(S: seq<Word>, V: seq<Working>)
    requires Run(S, V)
    requires At(S, 8, 0, 0, 0, 0, 0, 0, 0, 24)
    requires At(S, 16, 0x61626380, 0x000F0000, 0x7DA86405, 0x600003C6, 0x3E9D7B78, 0x0183FC00, 0x12DCBFDB, 0xE2E2C38E)
    ensures At(S, 24, 0xC8215C1A, 0xB73679A2, 0xE5BC3909, 0x32663C5B, 0x9D209D67, 0xEC8726CB, 0x702138A4, 0xD3B7973B)
  {
    hide Run;
    Lengths(S, V);
    NextWord(S, V, 24, 0, 0, 0x000F0000, 0x12DCBFDB, 0xC8215C1A);
    NextWord(S, V, 25, 0, 0, 0x7DA86405, 0xE2E2C38E, 0xB73679A2);
    NextWord(S, V, 26, 0, 0, 0x600003C6, 0xC8215C1A, 0xE5BC3909);
    NextWord(S, V, 27, 0, 0, 0x3E9D7B78, 0xB73679A2, 0x32663C5B);
    NextWord(S, V, 28, 0, 0, 0x0183FC00, 0xE5BC3909, 0x9D209D67);
    NextWord(S, V, 29, 0, 0, 0x12DCBFDB, 0x32663C5B, 0xEC8726CB);
    NextWord(S, V, 30, 0, 24, 0xE2E2C38E, 0x9D209D67, 0x702138A4);
    NextWord(S, V, 31, 24, 0x61626380, 0xC8215C1A, 0xEC8726CB, 0xD3B7973B);
  }

  lemma Words32(S: seq<Word>, V: seq<Working>)
    requires Run(S, V)
    requires At(S, 16, 0x61626380, 0x000F0000, 0x7DA86405, 0x600003C6, 0x3E9D7B78, 0x0183FC00, 0x12DCBFDB, 0xE2E2C38E)
    requires At(S, 24, 0xC8215C1A, 0xB73679A2, 0xE5BC3909, 0x32663C5B, 0x9D209D67, 0xEC8726CB, 0x702138A4, 0xD3B7973B)
    ensures At(S, 32, 0x93F5997F, 0x3B68BA73, 0xAFF4FFC1, 0xF10A5C62, 0x0A8B3996, 0x72AF830A, 0x9409E33E, 0x24641522)
  {
    hide Run;
    Lengths(S, V);
    NextWord(S, V, 32, 0x61626380, 0x000F0000, 0xB73679A2, 0x702138A4, 0x93F5997F);
    NextWord(S, V, 33, 0x000F0000, 0x7DA86405, 0xE5BC3909, 0xD3B7973B, 0x3B68BA73);
    NextWord(S, V, 34, 0x7DA86405, 0x600003C6, 0x32663C5B, 0x93F5997F, 0xAFF4FFC1);
    NextWord(S, V, 35, 0x600003C6, 0x3E9D7B78, 0x9D209D67, 0x3B68BA73, 0xF10A5C62);
    NextWord(S, V, 36, 0x3E9D7B78, 0x0183FC00, 0xEC8726CB, 0xAFF4FFC1, 0x0A8B3996);
    NextWord(S, V, 37, 0x0183FC00, 0x12DCBFDB, 0x702138A4, 0xF10A5C62, 0x72AF830A);
    NextWord(S, V, 38, 0x12DCBFDB, 0xE2E2C38E, 0xD3B7973B, 0x0A8B3996, 0x9409E33E);
    NextWord(S, V, 39, 0xE2E2C38E, 0xC8215C1A, 0x93F5997F, 0x72AF830A, 0x24641522);
  }

  lemma Words40(S: seq<Word>, V: seq<Working>)
    requires Run(S, V)
    requires At(S, 24, 0xC8215C1A, 0xB73679A2, 0xE5BC3909, 0x32663C5B, 0x9D209D67, 0xEC8726CB, 0x702138A4, 0xD3B7973B)
    requires At(S, 32, 0x93F5997F, 0x3B68BA73, 0xAFF4FFC1, 0xF10A5C62, 0x0A8B3996, 0x72AF830A, 0x9409E33E, 0x24641522)
    ensures At(S, 40, 0x9F47BF94, 0xF0A64F5A, 0x3E246A79, 0x27333BA3, 0x0C4763F2, 0x840ABF27, 0x7A290D5D, 0x065C43DA)
  {
    hide Run;
    Lengths(S, V);
    NextWord(S, V, 40, 0xC8215C1A, 0xB73679A2, 0x3B68BA73, 0x9409E33E, 0x9F47BF94);
    NextWord(S, V, 41, 0xB73679A2, 0xE5BC3909, 0xAFF4FFC1, 0x24641522, 0xF0A64F5A);
    NextWord(S, V, 42, 0xE5BC3909, 0x32663C5B, 0xF10A5C62, 0x9F47BF94, 0x3E246A79);
    NextWord(S, V, 43, 0x32663C5B, 0x9D209D67, 0x0A8B3996, 0xF0A64F5A, 0x27333BA3);
    NextWord(S, V, 44, 0x9D209D67, 0xEC8726CB, 0x72AF830A, 0x3E246A79, 0x0C4763F2);
    NextWord(S, V, 45, 0xEC8726CB, 0x702138A4, 0x9409E33E, 0x27333BA3, 0x840ABF27);
    NextWord(S, V, 46, 0x702138A4, 0xD3B7973B, 0x24641522, 0x0C4763F2, 0x7A290D5D);
    NextWord(S, V, 47, 0xD3B7973B, 0x93F5997F, 0x9F47BF94, 0x840ABF27, 0x065C43DA);
  }

  lemma Words48(S: seq<Word>, V: seq<Working>)
    requires Run(S, V)
    requires At(S, 32, 0x93F5997F, 0x3B68BA73, 0xAFF4FFC1, 0xF10A5C62, 0x0A8B3996, 0x72AF830A, 0x9409E33E, 0x24641522)
    requires At(S, 40, 0x9F47BF94, 0xF0A64F5A, 0x3E246A79, 0x27333BA3, 0x0C4763F2, 0x840ABF27, 0x7A290D5D, 0x065C43DA)
    ensures At(S, 48, 0xFB3E89CB, 0xCC7617DB, 0xB9E66C34, 0xA9993667, 0x84BADEDD, 0xC21462BC, 0x1487472C, 0xB20F7A99)
  {
    hide Run;
    Lengths(S, V);
    NextWord(S, V, 48, 0x93F5997F, 0x3B68BA73, 0xF0A64F5A, 0x7A290D5D, 0xFB3E89CB);
    NextWord(S, V, 49, 0x3B68BA73, 0xAFF4FFC1, 0x3E246A79, 0x065C43DA, 0xCC7617DB);
    NextWord(S, V, 50, 0xAFF4FFC1, 0xF10A5C62, 0x27333BA3, 0xFB3E89CB, 0xB9E66C34);
    NextWord(S, V, 51, 0xF10A5C62, 0x0A8B3996, 0x0C4763F2, 0xCC7617DB, 0xA9993667);
    NextWord(S, V, 52, 0x0A8B3996, 0x72AF830A, 0x840ABF27, 0xB9E66C34, 0x84BADEDD);
    NextWord(S, V, 53, 0x72AF830A, 0x9409E33E, 0x7A290D5D, 0xA9993667, 0xC21462BC);
    NextWord(S, V, 54, 0x9409E33E, 0x24641522, 0x065C43DA, 0x84BADEDD, 0x1487472C);
    NextWord(S, V, 55, 0x24641522, 0x9F47BF94, 0xFB3E89CB, 0xC21462BC, 0xB20F7A99);
  }

  lemma Words56(S: seq<Word>, V: seq<Working>)
    requires Run(S, V)
    requires At(S, 40, 0x9F47BF94, 0xF0A64F5A, 0x3E246A79, 0x27333BA3, 0x0C4763F2, 0x840ABF27, 0x7A290D5D, 0x065C43DA)
    requires At(S, 48, 0xFB3E89CB, 0xCC7617DB, 0xB9E66C34, 0xA9993667, 0x84BADEDD, 0xC21462BC, 0x1487472C, 0xB20F7A99)
    ensures At(S, 56, 0xEF57B9CD, 0xEBE6B238, 0x9FE3095E, 0x78BC8D4B, 0xA43FCF15, 0x668B2FF8, 0xEEABA2CC, 0x12B1EDEB)
  {
    hide Run;
    Lengths(S, V);
    NextWord(S, V, 56, 0x9F47BF94, 0xF0A64F5A, 0xCC7617DB, 0x1487472C, 0xEF57B9CD);
    NextWord(S, V, 57, 0xF0A64F5A, 0x3E246A79, 0xB9E66C34, 0xB20F7A99, 0xEBE6B238);
    NextWord(S, V, 58, 0x3E246A79, 0x27333BA3, 0xA9993667, 0xEF57B9CD, 0x9FE3095E);
    NextWord(S, V, 59, 0x27333BA3, 0x0C4763F2, 0x84BADEDD, 0xEBE6B238, 0x78BC8D4B);
    NextWord(S, V, 60, 0x0C4763F2, 0x840ABF27, 0xC21462BC, 0x9FE3095E, 0xA43FCF15);
    NextWord(S, V, 61, 0x840ABF27, 0x7A290D5D, 0x1487472C, 0x78BC8D4B, 0x668B2FF8);
    NextWord(S, V, 62, 0x7A290D5D, 0x065C43DA, 0xB20F7A99, 0xA43FCF15, 0xEEABA2CC);
    NextWord(S, V, 63, 0x065C43DA, 0xFB3E89CB, 0xEF57B9CD, 0x668B2FF8, 0x12B1EDEB);
  }

  lemma Constants0()
    ensures K[0] == 0x428A2F98 && K[1] == 0x71374491 && K[2] == 0xB5C0FBCF && K[3] == 0xE9B5DBA5
    ensures K[4] == 0x3956C25B && K[5] == 0x59F111F1 && K[6] == 0x923F82A4 && K[7] == 0xAB1C5ED5
  {}

  lemma Rounds0(S: seq<Word>, V: seq<Working>)
    requires Run(S, V)
    requires At(S, 0, 0x61626380, 0, 0, 0, 0, 0, 0, 0)
    requires After(V, 0, 0x6A09E667, 0xBB67AE85, 0x3C6EF372, 0xA54FF53A, 0x510E527F, 0x9B05688C, 0x1F83D9AB,
                   0x5BE0CD19)
    ensures After(V, 8, 0x85A07B5F, 0xE5030380, 0x2B4209F5, 0x04409A6A, 0x0C657A79, 0x9B27A401, 0x714260AD,
                  0x43ADA245)
  {
    hide Run, Schedule, Rounds, K;
    Constants0();
    Lengths(S, V);
    OneRound(S, V, 0, 0x6A09E667, 0xBB67AE85, 0x3C6EF372, 0xA54FF53A, 0x510E527F, 0x9B05688C, 0x1F83D9AB, 0x5BE0CD19,
             0x428A2F98, 0x61626380, 0x5D6AEBCD, 0xFA2A4622);
    OneRound(S, V, 1, 0x5D6AEBCD, 0x6A09E667, 0xBB67AE85, 0x3C6EF372, 0xFA2A4622, 0x510E527F, 0x9B05688C, 0x1F83D9AB,
             0x71374491, 0, 0x5A6AD9AD, 0x78CE7989);
    OneRound(S, V, 2, 0x5A6AD9AD, 0x5D6AEBCD, 0x6A09E667, 0xBB67AE85, 0x78CE7989, 0xFA2A4622, 0x510E527F, 0x9B05688C,
             0xB5C0FBCF, 0, 0xC8C347A7, 0xF92939EB);
    OneRound(S, V, 3, 0xC8C347A7, 0x5A6AD9AD, 0x5D6AEBCD, 0x6A09E667, 0xF92939EB, 0x78CE7989, 0xFA2A4622, 0x510E527F,
             0xE9B5DBA5, 0, 0xD550F666, 0x24E00850);
    OneRound(S, V, 4, 0xD550F666, 0xC8C347A7, 0x5A6AD9AD, 0x5D6AEBCD, 0x24E00850, 0xF92939EB, 0x78CE7989, 0xFA2A4622,
             0x3956C25B, 0, 0x04409A6A, 0x43ADA245);
    OneRound(S, V, 5, 0x04409A6A, 0xD550F666, 0xC8C347A7, 0x5A6AD9AD, 0x43ADA245, 0x24E00850, 0xF92939EB, 0x78CE7989,
             0x59F111F1, 0, 0x2B4209F5, 0x714260AD);
    OneRound(S, V, 6, 0x2B4209F5, 0x04409A6A, 0xD550F666, 0xC8C347A7, 0x714260AD, 0x43ADA245, 0x24E00850, 0xF92939EB,
             0x923F82A4, 0, 0xE5030380, 0x9B27A401);
    OneRound(S, V, 7, 0xE5030380, 0x2B4209F5, 0x04409A6A, 0xD550F666, 0x9B27A401, 0x714260AD, 0x43ADA245, 0x24E00850,
             0xAB1C5ED5, 0, 0x85A07B5F, 0x0C657A79);
  }

  lemma Constants8()
    ensures K[8] == 0xD807AA98 && K[9] == 0x12835B01 && K[10] == 0x243185BE && K[11] == 0x550C7DC3
    ensures K[12] == 0x72BE5D74 && K[13] == 0x80DEB1FE && K[14] == 0x9BDC06A7 && K[15] == 0xC19BF174
  {}

  lemma Rounds8(S: seq<Word>, V: seq<Working>)
    requires Run(S, V)
    requires At(S, 8, 0, 0, 0, 0, 0, 0, 0, 24)
    requires After(V, 8, 0x85A07B5F, 0xE5030380, 0x2B4209F5, 0x04409A6A, 0x0C657A79, 0x9B27A401, 0x714260AD,
                   0x43ADA245)
    ensures After(V, 16, 0xB0FA238E, 0xC0645FDE, 0xD932EB16, 0x87912990, 0x07590DCD, 0x0B92F20C, 0x745A48DE,
                  0x1E578218)
  {
    hide Run, Schedule, Rounds, K;
    Constants8();
    Lengths(S, V);
    OneRound(S, V, 8, 0x85A07B5F, 0xE5030380, 0x2B4209F5, 0x04409A6A, 0x0C657A79, 0x9B27A401, 0x714260AD, 0x43ADA245,
             0xD807AA98, 0, 0x8E04ECB9, 0x32CA2D8C);
    OneRound(S, V, 9, 0x8E04ECB9, 0x85A07B5F, 0xE5030380, 0x2B4209F5, 0x32CA2D8C, 0x0C657A79, 0x9B27A401, 0x714260AD,
             0x12835B01, 0, 0x8C87346B, 0x1CC92596);
    OneRound(S, V, 10, 0x8C87346B, 0x8E04ECB9, 0x85A07B5F, 0xE5030380, 0x1CC92596, 0x32CA2D8C, 0x0C657A79, 0x9B27A401,
             0x243185BE, 0, 0x4798A3F4, 0x436B23E8);
    OneRound(S, V, 11, 0x4798A3F4, 0x8C87346B, 0x8E04ECB9, 0x85A07B5F, 0x436B23E8, 0x1CC92596, 0x32CA2D8C, 0x0C657A79,
             0x550C7DC3, 0, 0xF71FC5A9, 0x816FD6E9);
    OneRound(S, V, 12, 0xF71FC5A9, 0x4798A3F4, 0x8C87346B, 0x8E04ECB9, 0x816FD6E9, 0x436B23E8, 0x1CC92596, 0x32CA2D8C,
             0x72BE5D74, 0, 0x87912990, 0x1E578218);
    OneRound(S, V, 13, 0x87912990, 0xF71FC5A9, 0x4798A3F4, 0x8C87346B, 0x1E578218, 0x816FD6E9, 0x436B23E8, 0x1CC92596,
             0x80DEB1FE, 0, 0xD932EB16, 0x745A48DE);
    OneRound(S, V, 14, 0xD932EB16, 0x87912990, 0xF71FC5A9, 0x4798A3F4, 0x745A48DE, 0x1E578218, 0x816FD6E9, 0x436B23E8,
             0x9BDC06A7, 0, 0xC0645FDE, 0x0B92F20C);
    OneRound(S, V, 15, 0xC0645FDE, 0xD932EB16, 0x87912990, 0xF71FC5A9, 0x0B92F20C, 0x745A48DE, 0x1E578218, 0x816FD6E9,
             0xC19BF174, 24, 0xB0FA238E, 0x07590DCD);
  }

  lemma Constants16()
    ensures K[16] == 0xE49B69C1 && K[17] == 0xEFBE4786 && K[18] == 0x0FC19DC6 && K[19] == 0x240CA1CC
    ensures K[20] == 0x2DE92C6F && K[21] == 0x4A7484AA && K[22] == 0x5CB0A9DC && K[23] == 0x76F988DA
  {}

  lemma Rounds16(S: seq<Word>, V: seq<Working>)
    requires Run(S, V)
    requires At(S, 16, 0x61626380, 0x000F0000, 0x7DA86405, 0x600003C6, 0x3E9D7B78, 0x0183FC00, 0x12DCBFDB, 0xE2E2C38E)
    requires After(V, 16, 0xB0FA238E, 0xC0645FDE, 0xD932EB16, 0x87912990, 0x07590DCD, 0x0B92F20C, 0x745A48DE,
                   0x1E578218)
    ensures After(V, 24, 0xC5D53D8D, 0xA7A3623F, 0xC2606D6D, 0x9DC68B63, 0xAA47C347, 0x49F5114A, 0xE1257970,
                  0x8ADA8930)
  {
    hide Run, Schedule, Rounds, K;
    Constants16();
    Lengths(S, V);
    OneRound(S, V, 16, 0xB0FA238E, 0xC0645FDE, 0xD932EB16, 0x87912990, 0x07590DCD, 0x0B92F20C, 0x745A48DE, 0x1E578218,
             0xE49B69C1, 0x61626380, 0x21DA9A9B, 0x8034229C);
    OneRound(S, V, 17, 0x21DA9A9B, 0xB0FA238E, 0xC0645FDE, 0xD932EB16, 0x8034229C, 0x07590DCD, 0x0B92F20C, 0x745A48DE,
             0xEFBE4786, 0x000F0000, 0xC2FBD9D1, 0x846EE454);
    OneRound(S, V, 18, 0xC2FBD9D1, 0x21DA9A9B, 0xB0FA238E, 0xC0645FDE, 0x846EE454, 0x8034229C, 0x07590DCD, 0x0B92F20C,
             0x0FC19DC6, 0x7DA86405, 0xFE777BBF, 0xCC899961);
    OneRound(S, V, 19, 0xFE777BBF, 0xC2FBD9D1, 0x21DA9A9B, 0xB0FA238E, 0xCC899961, 0x846EE454, 0x8034229C, 0x07590DCD,
             0x240CA1CC, 0x600003C6, 0xE1F20C33, 0xB0638179);
    OneRound(S, V, 20, 0xE1F20C33, 0xFE777BBF, 0xC2FBD9D1, 0x21DA9A9B, 0xB0638179, 0xCC899961, 0x846EE454, 0x8034229C,
             0x2DE92C6F, 0x3E9D7B78, 0x9DC68B63, 0x8ADA8930);
    OneRound(S, V, 21, 0x9DC68B63, 0xE1F20C33, 0xFE777BBF, 0xC2FBD9D1, 0x8ADA8930, 0xB0638179, 0xCC899961, 0x846EE454,
             0x4A7484AA, 0x0183FC00, 0xC2606D6D, 0xE1257970);
    OneRound(S, V, 22, 0xC2606D6D, 0x9DC68B63, 0xE1F20C33, 0xFE777BBF, 0xE1257970, 0x8ADA8930, 0xB0638179, 0xCC899961,
             0x5CB0A9DC, 0x12DCBFDB, 0xA7A3623F, 0x49F5114A);
    OneRound(S, V, 23, 0xA7A3623F, 0xC2606D6D, 0x9DC68B63, 0xE1F20C33, 0x49F5114A, 0xE1257970, 0x8ADA8930, 0xB0638179,
             0x76F988DA, 0xE2E2C38E, 0xC5D53D8D, 0xAA47C347);
  }

  lemma Constants24()
    ensures K[24] == 0x983E5152 && K[25] == 0xA831C66D && K[26] == 0xB00327C8 && K[27] == 0xBF597FC7
    ensures K[28] == 0xC6E00BF3 && K[29] == 0xD5A79147 && K[30] == 0x06CA6351 && K[31] == 0x14292967
  {}

  lemma Rounds24(S: seq<Word>, V: seq<Working>)
    requires Run(S, V)
    requires At(S, 24, 0xC8215C1A, 0xB73679A2, 0xE5BC3909, 0x32663C5B, 0x9D209D67, 0xEC8726CB, 0x702138A4, 0xD3B7973B)
    requires After(V, 24, 0xC5D53D8D, 0xA7A3623F, 0xC2606D6D, 0x9DC68B63, 0xAA47C347, 0x49F5114A, 0xE1257970,
                   0x8ADA8930)
    ensures After(V, 32, 0x73B33BF5, 0xEA992A22, 0xA0060B30, 0x363482C9, 0xBA591112, 0x0109AB3A, 0xADE79437,
                  0x6112A3B7)
  {
    hide Run, Schedule, Rounds, K;
    Constants24();
    Lengths(S, V);
    OneRound(S, V, 24, 0xC5D53D8D, 0xA7A3623F, 0xC2606D6D, 0x9DC68B63, 0xAA47C347, 0x49F5114A, 0xE1257970, 0x8ADA8930,
             0x983E5152, 0xC8215C1A, 0x1C2C2838, 0x2823EF91);
    OneRound(S, V, 25, 0x1C2C2838, 0xC5D53D8D, 0xA7A3623F, 0xC2606D6D, 0x2823EF91, 0xAA47C347, 0x49F5114A, 0xE1257970,
             0xA831C66D, 0xB73679A2, 0xCDE8037D, 0x14383D8E);
    OneRound(S, V, 26, 0xCDE8037D, 0x1C2C2838, 0xC5D53D8D, 0xA7A3623F, 0x14383D8E, 0x2823EF91, 0xAA47C347, 0x49F5114A,
             0xB00327C8, 0xE5BC3909, 0xB62EC4BC, 0xC74C6516);
    OneRound(S, V, 27, 0xB62EC4BC, 0xCDE8037D, 0x1C2C2838, 0xC5D53D8D, 0xC74C6516, 0x14383D8E, 0x2823EF91, 0xAA47C347,
             0xBF597FC7, 0x32663C5B, 0x77D37528, 0xEDFFBFF8);
    OneRound(S, V, 28, 0x77D37528, 0xB62EC4BC, 0xCDE8037D, 0x1C2C2838, 0xEDFFBFF8, 0xC74C6516, 0x14383D8E, 0x2823EF91,
             0xC6E00BF3, 0x9D209D67, 0x363482C9, 0x6112A3B7);
    OneRound(S, V, 29, 0x363482C9, 0x77D37528, 0xB62EC4BC, 0xCDE8037D, 0x6112A3B7, 0xEDFFBFF8, 0xC74C6516, 0x14383D8E,
             0xD5A79147, 0xEC8726CB, 0xA0060B30, 0xADE79437);
    OneRound(S, V, 30, 0xA0060B30, 0x363482C9, 0x77D37528, 0xB62EC4BC, 0xADE79437, 0x6112A3B7, 0xEDFFBFF8, 0xC74C6516,
             0x06CA6351, 0x702138A4, 0xEA992A22, 0x0109AB3A);
    OneRound(S, V, 31, 0xEA992A22, 0xA0060B30, 0x363482C9, 0x77D37528, 0x0109AB3A, 0xADE79437, 0x6112A3B7, 0xEDFFBFF8,
             0x14292967, 0xD3B7973B, 0x73B33BF5, 0xBA591112);
  }

  lemma Constants32()
    ensures K[32] == 0x27B70A85 && K[33] == 0x2E1B2138 && K[34] == 0x4D2C6DFC && K[35] == 0x53380D13
    ensures K[36] == 0x650A7354 && K[37] == 0x766A0ABB && K[38] == 0x81C2C92E && K[39] == 0x92722C85
  {}

  lemma Rounds32(S: seq<Word>, V: seq<Working>)
    requires Run(S, V)
    requires At(S, 32, 0x93F5997F, 0x3B68BA73, 0xAFF4FFC1, 0xF10A5C62, 0x0A8B3996, 0x72AF830A, 0x9409E33E, 0x24641522)
    requires After(V, 32, 0x73B33BF5, 0xEA992A22, 0xA0060B30, 0x363482C9, 0xBA591112, 0x0109AB3A, 0xADE79437,
                   0x6112A3B7)
    ensures After(V, 40, 0x79EA687A, 0x6DC57A8A, 0x34DF1604, 0x41A65CB1, 0x1EFBC0A0, 0xF0781BC8, 0xA507A53D,
                  0x0772A26B)
  {
    hide Run, Schedule, Rounds, K;
    Constants32();
    Lengths(S, V);
    OneRound(S, V, 32, 0x73B33BF5, 0xEA992A22, 0xA0060B30, 0x363482C9, 0xBA591112, 0x0109AB3A, 0xADE79437, 0x6112A3B7,
             0x27B70A85, 0x93F5997F, 0x98E12507, 0x9CD9F5F6);
    OneRound(S, V, 33, 0x98E12507, 0x73B33BF5, 0xEA992A22, 0xA0060B30, 0x9CD9F5F6, 0xBA591112, 0x0109AB3A, 0xADE79437,
             0x2E1B2138, 0x3B68BA73, 0xFE604DF5, 0x59249DD3);
    OneRound(S, V, 34, 0xFE604DF5, 0x98E12507, 0x73B33BF5, 0xEA992A22, 0x59249DD3, 0x9CD9F5F6, 0xBA591112, 0x0109AB3A,
             0x4D2C6DFC, 0xAFF4FFC1, 0xA9A7738C, 0x085F3833);
    OneRound(S, V, 35, 0xA9A7738C, 0xFE604DF5, 0x98E12507, 0x73B33BF5, 0x085F3833, 0x59249DD3, 0x9CD9F5F6, 0xBA591112,
             0x53380D13, 0xF10A5C62, 0x65A0CFE4, 0xF4B002D6);
    OneRound(S, V, 36, 0x65A0CFE4, 0xA9A7738C, 0xFE604DF5, 0x98E12507, 0xF4B002D6, 0x085F3833, 0x59249DD3, 0x9CD9F5F6,
             0x650A7354, 0x0A8B3996, 0x41A65CB1, 0x0772A26B);
    OneRound(S, V, 37, 0x41A65CB1, 0x65A0CFE4, 0xA9A7738C, 0xFE604DF5, 0x0772A26B, 0xF4B002D6, 0x085F3833, 0x59249DD3,
             0x766A0ABB, 0x72AF830A, 0x34DF1604, 0xA507A53D);
    OneRound(S, V, 38, 0x34DF1604, 0x41A65CB1, 0x65A0CFE4, 0xA9A7738C, 0xA507A53D, 0x0772A26B, 0xF4B002D6, 0x085F3833,
             0x81C2C92E, 0x9409E33E, 0x6DC57A8A, 0xF0781BC8);
    OneRound(S, V, 39, 0x6DC57A8A, 0x34DF1604, 0x41A65CB1, 0x65A0CFE4, 0xF0781BC8, 0xA507A53D, 0x0772A26B, 0xF4B002D6,
             0x92722C85, 0x24641522, 0x79EA687A, 0x1EFBC0A0);
  }

  lemma Constants40()
    ensures K[40] == 0xA2BFE8A1 && K[41] == 0xA81A664B && K[42] == 0xC24B8B70 && K[43] == 0xC76C51A3
    ensures K[44] == 0xD192E819 && K[45] == 0xD6990624 && K[46] == 0xF40E3585 && K[47] == 0x106AA070
  {}

  lemma Rounds40(S: seq<Word>, V: seq<Working>)
    requires Run(S, V)
    requires At(S, 40, 0x9F47BF94, 0xF0A64F5A, 0x3E246A79, 0x27333BA3, 0x0C4763F2, 0x840ABF27, 0x7A290D5D, 0x065C43DA)
    requires After(V, 40, 0x79EA687A, 0x6DC57A8A, 0x34DF1604, 0x41A65CB1, 0x1EFBC0A0, 0xF0781BC8, 0xA507A53D,
                   0x0772A26B)
    ensures After(V, 48, 0x4172328D, 0xA14C14B0, 0x72AB4B91, 0x26628815, 0xFECF0BC6, 0xD57B94A9, 0xB7755DA1,
                  0xA80F11F0)
  {
    hide Run, Schedule, Rounds, K;
    Constants40();
    Lengths(S, V);
    OneRound(S, V, 40, 0x79EA687A, 0x6DC57A8A, 0x34DF1604, 0x41A65CB1, 0x1EFBC0A0, 0xF0781BC8, 0xA507A53D, 0x0772A26B,
             0xA2BFE8A1, 0x9F47BF94, 0xD6670766, 0x26352D63);
    OneRound(S, V, 41, 0xD6670766, 0x79EA687A, 0x6DC57A8A, 0x34DF1604, 0x26352D63, 0x1EFBC0A0, 0xF0781BC8, 0xA507A53D,
             0xA81A664B, 0xF0A64F5A, 0xDF46652F, 0x838B2711);
    OneRound(S, V, 42, 0xDF46652F, 0xD6670766, 0x79EA687A, 0x6DC57A8A, 0x838B2711, 0x26352D63, 0x1EFBC0A0, 0xF0781BC8,
             0xC24B8B70, 0x3E246A79, 0x17AA0DFE, 0xDECD4715);
    OneRound(S, V, 43, 0x17AA0DFE, 0xDF46652F, 0xD6670766, 0x79EA687A, 0xDECD4715, 0x838B2711, 0x26352D63, 0x1EFBC0A0,
             0xC76C51A3, 0x27333BA3, 0x9D4BAF93, 0xFDA24C2E);
    OneRound(S, V, 44, 0x9D4BAF93, 0x17AA0DFE, 0xDF46652F, 0xD6670766, 0xFDA24C2E, 0xDECD4715, 0x838B2711, 0x26352D63,
             0xD192E819, 0x0C4763F2, 0x26628815, 0xA80F11F0);
    OneRound(S, V, 45, 0x26628815, 0x9D4BAF93, 0x17AA0DFE, 0xDF46652F, 0xA80F11F0, 0xFDA24C2E, 0xDECD4715, 0x838B2711,
             0xD6990624, 0x840ABF27, 0x72AB4B91, 0xB7755DA1);
    OneRound(S, V, 46, 0x72AB4B91, 0x26628815, 0x9D4BAF93, 0x17AA0DFE, 0xB7755DA1, 0xA80F11F0, 0xFDA24C2E, 0xDECD4715,
             0xF40E3585, 0x7A290D5D, 0xA14C14B0, 0xD57B94A9);
    OneRound(S, V, 47, 0xA14C14B0, 0x72AB4B91, 0x26628815, 0x9D4BAF93, 0xD57B94A9, 0xB7755DA1, 0xA80F11F0, 0xFDA24C2E,
             0x106AA070, 0x065C43DA, 0x4172328D, 0xFECF0BC6);
  }

  lemma Constants48()
    ensures K[48] == 0x19A4C116 && K[49] == 0x1E376C08 && K[50] == 0x2748774C && K[51] == 0x34B0BCB5
    ensures K[52] == 0x391C0CB3 && K[53] == 0x4ED8AA4A && K[54] == 0x5B9CCA4F && K[55] == 0x682E6FF3
  {}

  lemma Rounds48(S: seq<Word>, V: seq<Working>)
    requires Run(S, V)
    requires At(S, 48, 0xFB3E89CB, 0xCC7617DB, 0xB9E66C34, 0xA9993667, 0x84BADEDD, 0xC21462BC, 0x1487472C, 0xB20F7A99)
    requires After(V, 48, 0x4172328D, 0xA14C14B0, 0x72AB4B91, 0x26628815, 0xFECF0BC6, 0xD57B94A9, 0xB7755DA1,
                   0xA80F11F0)
    ensures After(V, 56, 0x38CC9913, 0x3EC45CDB, 0xF5702FDB, 0x101FD28F, 0x54CB266B, 0xE50E1B4F, 0x9F4787C3,
                  0x529E7D00)
  {
    hide Run, Schedule, Rounds, K;
    Constants48();
    Lengths(S, V);
    OneRound(S, V, 48, 0x4172328D, 0xA14C14B0, 0x72AB4B91, 0x26628815, 0xFECF0BC6, 0xD57B94A9, 0xB7755DA1, 0xA80F11F0,
             0x19A4C116, 0xFB3E89CB, 0x05757CEB, 0xBD714038);
    OneRound(S, V, 49, 0x05757CEB, 0x4172328D, 0xA14C14B0, 0x72AB4B91, 0xBD714038, 0xFECF0BC6, 0xD57B94A9, 0xB7755DA1,
             0x1E376C08, 0xCC7617DB, 0xF11BFAA8, 0x6E5C390C);
    OneRound(S, V, 50, 0xF11BFAA8, 0x05757CEB, 0x4172328D, 0xA14C14B0, 0x6E5C390C, 0xBD714038, 0xFECF0BC6, 0xD57B94A9,
             0x2748774C, 0xB9E66C34, 0x7A0508A1, 0x52F1CCF7);
    OneRound(S, V, 51, 0x7A0508A1, 0xF11BFAA8, 0x05757CEB, 0x4172328D, 0x52F1CCF7, 0x6E5C390C, 0xBD714038, 0xFECF0BC6,
             0x34B0BCB5, 0xA9993667, 0x886E7A22, 0x49231C1E);
    OneRound(S, V, 52, 0x886E7A22, 0x7A0508A1, 0xF11BFAA8, 0x05757CEB, 0x49231C1E, 0x52F1CCF7, 0x6E5C390C, 0xBD714038,
             0x391C0CB3, 0x84BADEDD, 0x101FD28F, 0x529E7D00);
    OneRound(S, V, 53, 0x101FD28F, 0x886E7A22, 0x7A0508A1, 0xF11BFAA8, 0x529E7D00, 0x49231C1E, 0x52F1CCF7, 0x6E5C390C,
             0x4ED8AA4A, 0xC21462BC, 0xF5702FDB, 0x9F4787C3);
    OneRound(S, V, 54, 0xF5702FDB, 0x101FD28F, 0x886E7A22, 0x7A0508A1, 0x9F4787C3, 0x529E7D00, 0x49231C1E, 0x52F1CCF7,
             0x5B9CCA4F, 0x1487472C, 0x3EC45CDB, 0xE50E1B4F);
    OneRound(S, V, 55, 0x3EC45CDB, 0xF5702FDB, 0x101FD28F, 0x886E7A22, 0xE50E1B4F, 0x9F4787C3, 0x529E7D00, 0x49231C1E,
             0x682E6FF3, 0xB20F7A99, 0x38CC9913, 0x54CB266B);
  }

  lemma Constants56()
    ensures K[56] == 0x748F82EE && K[57] == 0x78A5636F && K[58] == 0x84C87814 && K[59] == 0x8CC70208
    ensures K[60] == 0x90BEFFFA && K[61] == 0xA4506CEB && K[62] == 0xBEF9A3F7 && K[63] == 0xC67178F2
  {}

  lemma Rounds56(S: seq<Word>, V: seq<Working>)
    requires Run(S, V)
    requires At(S, 56, 0xEF57B9CD, 0xEBE6B238, 0x9FE3095E, 0x78BC8D4B, 0xA43FCF15, 0x668B2FF8, 0xEEABA2CC, 0x12B1EDEB)
    requires After(V, 56, 0x38CC9913, 0x3EC45CDB, 0xF5702FDB, 0x101FD28F, 0x54CB266B, 0xE50E1B4F, 0x9F4787C3,
                   0x529E7D00)
    ensures After(V, 64, 0x506E3058, 0xD39A2165, 0x04D24D6C, 0xB85E2CE9, 0x5EF50F24, 0xFB121210, 0x948D25B6,
                  0x961F4894)
  {
    hide Run, Schedule, Rounds, K;
    Constants56();
    Lengths(S, V);
    OneRound(S, V, 56, 0x38CC9913, 0x3EC45CDB, 0xF5702FDB, 0x101FD28F, 0x54CB266B, 0xE50E1B4F, 0x9F4787C3, 0x529E7D00,
             0x748F82EE, 0xEF57B9CD, 0xFCD1887B, 0x9B5E906C);
    OneRound(S, V, 57, 0xFCD1887B, 0x38CC9913, 0x3EC45CDB, 0xF5702FDB, 0x9B5E906C, 0x54CB266B, 0xE50E1B4F, 0x9F4787C3,
             0x78A5636F, 0xEBE6B238, 0xC062D46F, 0x7E44008E);
    OneRound(S, V, 58, 0xC062D46F, 0xFCD1887B, 0x38CC9913, 0x3EC45CDB, 0x7E44008E, 0x9B5E906C, 0x54CB266B, 0xE50E1B4F,
             0x84C87814, 0x9FE3095E, 0xFFB70472, 0x6D83BFC6);
    OneRound(S, V, 59, 0xFFB70472, 0xC062D46F, 0xFCD1887B, 0x38CC9913, 0x6D83BFC6, 0x7E44008E, 0x9B5E906C, 0x54CB266B,
             0x8CC70208, 0x78BC8D4B, 0xB6AE8FFF, 0xB21BAD3D);
    OneRound(S, V, 60, 0xB6AE8FFF, 0xFFB70472, 0xC062D46F, 0xFCD1887B, 0xB21BAD3D, 0x6D83BFC6, 0x7E44008E, 0x9B5E906C,
             0x90BEFFFA, 0xA43FCF15, 0xB85E2CE9, 0x961F4894);
    OneRound(S, V, 61, 0xB85E2CE9, 0xB6AE8FFF, 0xFFB70472, 0xC062D46F, 0x961F4894, 0xB21BAD3D, 0x6D83BFC6, 0x7E44008E,
             0xA4506CEB, 0x668B2FF8, 0x04D24D6C, 0x948D25B6);
    OneRound(S, V, 62, 0x04D24D6C, 0xB85E2CE9, 0xB6AE8FFF, 0xFFB70472, 0x948D25B6, 0x961F4894, 0xB21BAD3D, 0x6D83BFC6,
             0xBEF9A3F7, 0xEEABA2CC, 0xD39A2165, 0xFB121210);
    OneRound(S, V, 63, 0xD39A2165, 0x04D24D6C, 0xB85E2CE9, 0xB6AE8FFF, 0xFB121210, 0x948D25B6, 0x961F4894, 0xB21BAD3D,
             0xC67178F2, 0x12B1EDEB, 0x506E3058, 0x5EF50F24);
  }

  lemma AllRounds(S: seq<Word>, V: seq<Working>)
    requires Run(S, V)
    ensures After(V, 64, 0x506E3058, 0xD39A2165, 0x04D24D6C, 0xB85E2CE9, 0x5EF50F24, 0xFB121210, 0x948D25B6,
                  0x961F4894)
  {
    Start0(S, V);
    hide *;
    FirstWords(S, V);
    Words16(S, V); Words24(S, V); Words32(S, V); Words40(S, V); Words48(S, V); Words56(S, V);
    Rounds0(S, V); Rounds8(S, V); Rounds16(S, V); Rounds24(S, V); Rounds32(S, V);
    Rounds40(S, V); Rounds48(S, V); Rounds56(S, V);
  }

  lemma Start0(S: seq<Word>, V: seq<Working>)
    requires Run(S, V)
    ensures After(V, 0, 0x6A09E667, 0xBB67AE85, 0x3C6EF372, 0xA54FF53A, 0x510E527F, 0x9B05688C, 0x1F83D9AB,
                  0x5BE0CD19)
  {
    hide Schedule, Round;
    RoundsStep(H0, AbcBlock(), 0);
  }

  /** The hash value after the one block. */
  lemma HashValueOfAbc()
    ensures Compress(H0, AbcBlock()) == [
      0xBA7816BF, 0x8F01CFEA, 0x414140DE, 0x5DAE2223, 0xB00361A3, 0x96177A9C, 0xB410FF61, 0xF20015AD
    ]
  {
    hide Rounds, Schedule;
    var S := seq(64, t requires 0 <= t < 64 => Schedule(AbcBlock(), t));
    var V := seq(65, t requires 0 <= t < 65 => Rounds(H0, AbcBlock(), t));
    AllRounds(S, V);
    LastSum();
    assert V[64] == Rounds(H0, AbcBlock(), 64);
  }

  lemma LastSum()
    ensures Final(H0, Working(0x506E3058, 0xD39A2165, 0x04D24D6C, 0xB85E2CE9,
                              0x5EF50F24, 0xFB121210, 0x948D25B6, 0x961F4894)) == [
      0xBA7816BF, 0x8F01CFEA, 0x414140DE, 0x5DAE2223, 0xB00361A3, 0x96177A9C, 0xB410FF61, 0xF20015AD
    ]
  {
    assert Plus(0x6A09E667, 0x506E3058) == 0xBA7816BF
        && Plus(0xBB67AE85, 0xD39A2165) == 0x8F01CFEA
        && Plus(0x3C6EF372, 0x04D24D6C) == 0x414140DE
        && Plus(0xA54FF53A, 0xB85E2CE9) == 0x5DAE2223
        && Plus(0x510E527F, 0x5EF50F24) == 0xB00361A3
        && Plus(0x9B05688C, 0xFB121210) == 0x96177A9C
        && Plus(0x1F83D9AB, 0x948D25B6) == 0xB410FF61
        && Plus(0x5BE0CD19, 0x961F4894) == 0xF20015AD;
  }

  lemma DigestBytes0()
    ensures BytesOf(0xBA7816BF) == [0xBA, 0x78, 0x16, 0xBF]
    ensures BytesOf(0x8F01CFEA) == [0x8F, 0x01, 0xCF, 0xEA]
  {
    LowBytes(0xBA7816BF);
    LowBytes(0x8F01CFEA);
    assert (0xBA7816BF as Word) as int == 0xBA7816BF
        && (0x8F01CFEA as Word) as int == 0x8F01CFEA;
  }

  lemma DigestBytes2()
    ensures BytesOf(0x414140DE) == [0x41, 0x41, 0x40, 0xDE]
    ensures BytesOf(0x5DAE2223) == [0x5D, 0xAE, 0x22, 0x23]
  {
    LowBytes(0x414140DE);
    LowBytes(0x5DAE2223);
    assert (0x414140DE as Word) as int == 0x414140DE
        && (0x5DAE2223 as Word) as int == 0x5DAE2223;
  }

  lemma DigestBytes4()
    ensures BytesOf(0xB00361A3) == [0xB0, 0x03, 0x61, 0xA3]
    ensures BytesOf(0x96177A9C) == [0x96, 0x17, 0x7A, 0x9C]
  {
    LowBytes(0xB00361A3);
    LowBytes(0x96177A9C);
    assert (0xB00361A3 as Word) as int == 0xB00361A3
        && (0x96177A9C as Word) as int == 0x96177A9C;
  }

  lemma DigestBytes6()
    ensures BytesOf(0xB410FF61) == [0xB4, 0x10, 0xFF, 0x61]
    ensures BytesOf(0xF20015AD) == [0xF2, 0x00, 0x15, 0xAD]
  {
    LowBytes(0xB410FF61);
    LowBytes(0xF20015AD);
    assert (0xB410FF61 as Word) as int == 0xB410FF61
        && (0xF20015AD as Word) as int == 0xF20015AD;
  }

  /** The published SHA-256 digest of `abc`. */
  lemma DigestOfAbc()
    ensures Hash(ABC) == [
      0xBA, 0x78, 0x16, 0xBF, 0x8F, 0x01, 0xCF, 0xEA, 0x41, 0x41, 0x40, 0xDE, 0x5D, 0xAE, 0x22, 0x23,
      0xB0, 0x03, 0x61, 0xA3, 0x96, 0x17, 0x7A, 0x9C, 0xB4, 0x10, 0xFF, 0x61, 0xF2, 0x00, 0x15, 0xAD
    ]
  {
    hide Compress, BytesOf, Pad;
    AbcPadded();
    HashValueOfAbc();
    var h := Compress(H0, AbcBlock());
    assert Pad(ABC)[0..] == Pad(ABC) && Pad(ABC)[0..64] == AbcBlock();
    ChainBlock(H0, Pad(ABC), 0);
    ChainNothing(h, Pad(ABC)[64..]);
    DigestBytes0(); DigestBytes2(); DigestBytes4(); DigestBytes6();
    EightWords(h);
  }

  lemma EightWords(h: Digest)
    ensures Serialize(h) == BytesOf(h[0]) + BytesOf(h[1]) + BytesOf(h[2]) + BytesOf(h[3]) +
                            BytesOf(h[4]) + BytesOf(h[5]) + BytesOf(h[6]) + BytesOf(h[7])
  {
    hide BytesOf, Serialize;
    assert h[..8] == h;
    OneWord(h); NextBytes(h, 1); NextBytes(h, 2); NextBytes(h, 3);
    NextBytes(h, 4); NextBytes(h, 5); NextBytes(h, 6); NextBytes(h, 7);
  }

  lemma OneWord(h: Digest)
    ensures Serialize(h[..1]) == BytesOf(h[0])
  {
    assert Serialize(h[..0]) == [];
    NextBytes(h, 0);
  }

  lemma NextBytes(h: Digest, n: nat)
    requires n < 8
    ensures Serialize(h[..n + 1]) == Serialize(h[..n]) + BytesOf(h[n])
  {
    assert h[..n + 1][..n] == h[..n];
  }
}
