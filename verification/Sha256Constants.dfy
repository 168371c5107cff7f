/**
 * The constants and the bit functions of SHA-256 from where FIPS 180-4 takes them: sections 4.2.2 and
 * 5.3.3 (roots of the first primes) and 4.1.2 (functions of three words and of one).
 */
module Sha256Constants {
  import opened Bits
  import opened Sha256Spec

  // ---- Roots ------------------------------------------------------------------------------

  /** The cube root of p, cut off after thirty-two bits behind the point. */
  predicate CubeRoot(n: nat, p: nat) {
    n * n * n <= p * 0x1_0000_0000_0000_0000_0000_0000 < (n + 1) * (n + 1) * (n + 1)
  }

  /** A round constant: the thirty-two bits behind the point in the cube root of p. */
  ghost predicate InCubeRoot(k: Word, p: nat) {
    exists n: nat :: CubeRoot(n, p) && n % 0x1_0000_0000 == k as int
  }

  predicate SquareRoot(n: nat, p: nat) {
    n * n <= p * 0x1_0000_0000_0000_0000 < (n + 1) * (n + 1)
  }

  ghost predicate InSquareRoot(h: Word, p: nat) {
    exists n: nat :: SquareRoot(n, p) && n % 0x1_0000_0000 == h as int
  }

  const P0: seq<nat> := [2, 3, 5, 7, 11, 13, 17, 19, 23, 29, 31, 37, 41, 43, 47, 53]
  const P1: seq<nat> := [59, 61, 67, 71, 73, 79, 83, 89, 97, 101, 103, 107, 109, 113, 127, 131]
  const P2: seq<nat> := [137, 139, 149, 151, 157, 163, 167, 173, 179, 181, 191, 193, 197, 199, 211, 223]
  const P3: seq<nat> := [227, 229, 233, 239, 241, 251, 257, 263, 269, 271, 277, 281, 283, 293, 307, 311]
  /** The first sixty-four primes, in rows of sixteen. */
  const PRIMES: seq<nat> := P0 + P1 + P2 + P3

  lemma Row0()
    ensures forall i :: 0 <= i < 16 ==> InCubeRoot(K0[i], P0[i])
  {
    assert CubeRoot(0x1_428a2f98, 2);
    assert CubeRoot(0x1_71374491, 3);
    assert CubeRoot(0x1_b5c0fbcf, 5);
    assert CubeRoot(0x1_e9b5dba5, 7);
    assert CubeRoot(0x2_3956c25b, 11);
    assert CubeRoot(0x2_59f111f1, 13);
    assert CubeRoot(0x2_923f82a4, 17);
    assert CubeRoot(0x2_ab1c5ed5, 19);
    assert CubeRoot(0x2_d807aa98, 23);
    assert CubeRoot(0x3_12835b01, 29);
    assert CubeRoot(0x3_243185be, 31);
    assert CubeRoot(0x3_550c7dc3, 37);
    assert CubeRoot(0x3_72be5d74, 41);
    assert CubeRoot(0x3_80deb1fe, 43);
    assert CubeRoot(0x3_9bdc06a7, 47);
    assert CubeRoot(0x3_c19bf174, 53);
  }

  lemma Row1()
    ensures forall i :: 0 <= i < 16 ==> InCubeRoot(K1[i], P1[i])
  {
    assert CubeRoot(0x3_e49b69c1, 59);
    assert CubeRoot(0x3_efbe4786, 61);
    assert CubeRoot(0x4_0fc19dc6, 67);
    assert CubeRoot(0x4_240ca1cc, 71);
    assert CubeRoot(0x4_2de92c6f, 73);
    assert CubeRoot(0x4_4a7484aa, 79);
    assert CubeRoot(0x4_5cb0a9dc, 83);
    assert CubeRoot(0x4_76f988da, 89);
    assert CubeRoot(0x4_983e5152, 97);
    assert CubeRoot(0x4_a831c66d, 101);
    assert CubeRoot(0x4_b00327c8, 103);
    assert CubeRoot(0x4_bf597fc7, 107);
    assert CubeRoot(0x4_c6e00bf3, 109);
    assert CubeRoot(0x4_d5a79147, 113);
    assert CubeRoot(0x5_06ca6351, 127);
    assert CubeRoot(0x5_14292967, 131);
  }

  lemma Row2()
    ensures forall i :: 0 <= i < 16 ==> InCubeRoot(K2[i], P2[i])
  {
    assert CubeRoot(0x5_27b70a85, 137);
    assert CubeRoot(0x5_2e1b2138, 139);
    assert CubeRoot(0x5_4d2c6dfc, 149);
    assert CubeRoot(0x5_53380d13, 151);
    assert CubeRoot(0x5_650a7354, 157);
    assert CubeRoot(0x5_766a0abb, 163);
    assert CubeRoot(0x5_81c2c92e, 167);
    assert CubeRoot(0x5_92722c85, 173);
    assert CubeRoot(0x5_a2bfe8a1, 179);
    assert CubeRoot(0x5_a81a664b, 181);
    assert CubeRoot(0x5_c24b8b70, 191);
    assert CubeRoot(0x5_c76c51a3, 193);
    assert CubeRoot(0x5_d192e819, 197);
    assert CubeRoot(0x5_d6990624, 199);
    assert CubeRoot(0x5_f40e3585, 211);
    assert CubeRoot(0x6_106aa070, 223);
  }

  lemma Row3()
    ensures forall i :: 0 <= i < 16 ==> InCubeRoot(K3[i], P3[i])
  {
    assert CubeRoot(0x6_19a4c116, 227);
    assert CubeRoot(0x6_1e376c08, 229);
    assert CubeRoot(0x6_2748774c, 233);
    assert CubeRoot(0x6_34b0bcb5, 239);
    assert CubeRoot(0x6_391c0cb3, 241);
    assert CubeRoot(0x6_4ed8aa4a, 251);
    assert CubeRoot(0x6_5b9cca4f, 257);
    assert CubeRoot(0x6_682e6ff3, 263);
    assert CubeRoot(0x6_748f82ee, 269);
    assert CubeRoot(0x6_78a5636f, 271);
    assert CubeRoot(0x6_84c87814, 277);
    assert CubeRoot(0x6_8cc70208, 281);
    assert CubeRoot(0x6_90befffa, 283);
    assert CubeRoot(0x6_a4506ceb, 293);
    assert CubeRoot(0x6_bef9a3f7, 307);
    assert CubeRoot(0x6_c67178f2, 311);
  }

  /** Every round constant is the fraction of the cube root of its prime. */
  lemma RoundConstants()
    ensures |K| == |PRIMES| == 64 && forall i :: 0 <= i < 64 ==> InCubeRoot(K[i], PRIMES[i])
  {
    Row0();
    Row1();
    Row2();
    Row3();
  }

  lemma Start0To3()
    ensures InSquareRoot(H0.a, 2) && InSquareRoot(H0.b, 3) && InSquareRoot(H0.c, 5) && InSquareRoot(H0.d, 7)
  {
    assert SquareRoot(0x1_6a09e667, 2);
    assert SquareRoot(0x1_bb67ae85, 3);
    assert SquareRoot(0x2_3c6ef372, 5);
    assert SquareRoot(0x2_a54ff53a, 7);
  }

  lemma Start4To7()
    ensures InSquareRoot(H0.e, 11) && InSquareRoot(H0.f, 13) && InSquareRoot(H0.g, 17) && InSquareRoot(H0.h, 19)
  {
    assert SquareRoot(0x3_510e527f, 11);
    assert SquareRoot(0x3_9b05688c, 13);
    assert SquareRoot(0x4_1f83d9ab, 17);
    assert SquareRoot(0x4_5be0cd19, 19);
  }

  // ---- Bit by bit -------------------------------------------------------------------------

  /** The exclusive or of three levels. */
  predicate Odd(a: bool, b: bool, c: bool) {
    (a != b) != c
  }

  /** Level of a word that moved n places down without going round. */
  predicate MovedDown(x: Word, q: bv5, n: bv5) {
    q <= 31 - n && Level(x, q + n)
  }

  /** One word chooses between two others. */
  lemma Chooses(x: Word, y: Word, z: Word, q: bv5)
    ensures Level(Ch(x, y, z), q) <==> if Level(x, q) then Level(y, q) else Level(z, q)
  {
  }

  lemma Majority(x: Word, y: Word, z: Word, q: bv5)
    ensures Level(Maj(x, y, z), q) <==>
      (Level(x, q) && Level(y, q)) || (Level(x, q) && Level(z, q)) || (Level(y, q) && Level(z, q))
  {
  }

  lemma OddWord(a: Word, b: Word, c: Word, q: bv5)
    ensures Level(a ^ b ^ c, q) <==> Odd(Level(a, q), Level(b, q), Level(c, q))
  {
  }

  lemma TurnedFor0(x: Word, q: bv5)
    ensures Level(x.RotateRight(2), q) <==> Level(x, q + 2)
    ensures Level(x.RotateRight(13), q) <==> Level(x, q + 13)
    ensures Level(x.RotateRight(22), q) <==> Level(x, q + 22)
  {
  }

  lemma TurnedFor1(x: Word, q: bv5)
    ensures Level(x.RotateRight(6), q) <==> Level(x, q + 6)
    ensures Level(x.RotateRight(11), q) <==> Level(x, q + 11)
    ensures Level(x.RotateRight(25), q) <==> Level(x, q + 25)
  {
  }

  lemma TurnedForSmall(x: Word, q: bv5)
    ensures Level(x.RotateRight(7), q) <==> Level(x, q + 7)
    ensures Level(x.RotateRight(18), q) <==> Level(x, q + 18)
    ensures Level(x.RotateRight(17), q) <==> Level(x, q + 17)
    ensures Level(x.RotateRight(19), q) <==> Level(x, q + 19)
  {
  }

  lemma MovedForSmall(x: Word, q: bv5)
    ensures Level(x >> 3, q) <==> MovedDown(x, q, 3)
    ensures Level(x >> 10, q) <==> MovedDown(x, q, 10)
  {
  }

  // Each bit of a sigma is the parity of three bits, the positions counted round the word.

  lemma BigSigma0Bits(x: Word, q: bv5)
    ensures Level(BigSigma0(x), q) <==> Odd(Level(x, q + 2), Level(x, q + 13), Level(x, q + 22))
  {
    hide Odd;
    TurnedFor0(x, q);
    OddWord(x.RotateRight(2), x.RotateRight(13), x.RotateRight(22), q);
  }

  lemma BigSigma1Bits(x: Word, q: bv5)
    ensures Level(BigSigma1(x), q) <==> Odd(Level(x, q + 6), Level(x, q + 11), Level(x, q + 25))
  {
    hide Odd;
    TurnedFor1(x, q);
    OddWord(x.RotateRight(6), x.RotateRight(11), x.RotateRight(25), q);
  }

  lemma SmallSigma0Bits(x: Word, q: bv5)
    ensures Level(SmallSigma0(x), q) <==> Odd(Level(x, q + 7), Level(x, q + 18), MovedDown(x, q, 3))
  {
    hide Odd;
    TurnedForSmall(x, q);
    MovedForSmall(x, q);
    OddWord(x.RotateRight(7), x.RotateRight(18), x >> 3, q);
  }

  lemma SmallSigma1Bits(x: Word, q: bv5)
    ensures Level(SmallSigma1(x), q) <==> Odd(Level(x, q + 17), Level(x, q + 19), MovedDown(x, q, 10))
  {
    hide Odd;
    TurnedForSmall(x, q);
    MovedForSmall(x, q);
    OddWord(x.RotateRight(17), x.RotateRight(19), x >> 10, q);
  }

  // ---- Words as they are read and printed -------------------------------------------------

  lemma WordsAsRead(b0: byte, b1: byte, b2: byte, b3: byte)
    ensures BigEndianWord(b0, b1, b2, b3) ==
      (b0 as int * 0x100_0000 + b1 as int * 0x1_0000 + b2 as int * 0x100 + b3 as int) as bv32
  {
  }

  lemma AddsRound()
    ensures Add(0xFFFF_FFFF, 2) == 1
  {
  }

  lemma WordsAsPrinted()
    ensures Hex(0x0123_4567) == "01234567" && Hex(0x89AB_CDEF) == "89abcdef"
  {
  }

  /** The length field read back as a big-endian number. */
  lemma LengthField(n: nat)
    requires n < 0x1_0000_0000_0000_0000
    ensures var b := Be64(n);
            b[0] as int * 0x100_0000_0000_0000 + b[1] as int * 0x1_0000_0000_0000 + b[2] as int * 0x100_0000_0000
            + b[3] as int * 0x1_0000_0000 + b[4] as int * 0x100_0000 + b[5] as int * 0x1_0000 + b[6] as int * 0x100
            + b[7] as int == n
  {
    var q1, q2, q3, q4 := n / 0x100, n / 0x1_0000, n / 0x100_0000, n / 0x1_0000_0000;
    var q5, q6, q7 := n / 0x100_0000_0000, n / 0x1_0000_0000_0000, n / 0x100_0000_0000_0000;
    assert q2 == q1 / 256 && q3 == q2 / 256 && q4 == q3 / 256;
    assert q5 == q4 / 256 && q6 == q5 / 256 && q7 == q6 / 256;
  }
}
