/**
 * Where the constants of SHA-256 come from: sections 4.2.2 and 5.3.3 of FIPS 180-4
 * take the first 32 bits of the fractional parts of the cube roots of the first 64
 * primes, and of the square roots of the first eight.
 */
module Fips180Constants {
  import opened Fips180
  import opened FirstPrimes

  function Square(x: nat): nat {
    x * x
  }

  function Cube(x: nat): nat {
    x * x * x
  }

  /** With whole part w, k holds the first 32 bits of the fraction of the cube root of p. */
  predicate CubeRoot(p: nat, k: nat, w: nat) {
    Cube(w * 0x1_0000_0000 + k) <= p * Cube(0x1_0000_0000) < Cube(w * 0x1_0000_0000 + k + 1)
  }

  predicate SquareRoot(p: nat, k: nat, w: nat) {
    Square(w * 0x1_0000_0000 + k) <= p * Square(0x1_0000_0000) < Square(w * 0x1_0000_0000 + k + 1)
  }

  predicate IsRoundConstant(t: nat)
    requires t < |FIRST_PRIMES| && t < |ROUND_CONSTANTS|
  {
    exists w :: 1 <= w <= 6 && CubeRoot(FIRST_PRIMES[t], ROUND_CONSTANTS[t], w)
  }

  lemma InitialHashIsSquareRoots()
    ensures |INITIAL_HASH| == 8 <= |FIRST_PRIMES|
    ensures forall t :: 0 <= t < 8 ==> exists w :: 1 <= w <= 4 && SquareRoot(FIRST_PRIMES[t], INITIAL_HASH[t], w)
  {
    assert SquareRoot(FIRST_PRIMES[0], INITIAL_HASH[0], 1);
    assert SquareRoot(FIRST_PRIMES[1], INITIAL_HASH[1], 1);
    assert SquareRoot(FIRST_PRIMES[2], INITIAL_HASH[2], 2);
    assert SquareRoot(FIRST_PRIMES[3], INITIAL_HASH[3], 2);
    assert SquareRoot(FIRST_PRIMES[4], INITIAL_HASH[4], 3);
    assert SquareRoot(FIRST_PRIMES[5], INITIAL_HASH[5], 3);
    assert SquareRoot(FIRST_PRIMES[6], INITIAL_HASH[6], 4);
    assert SquareRoot(FIRST_PRIMES[7], INITIAL_HASH[7], 4);
  }

  lemma RoundConstantsAreCubeRoots()
    ensures |ROUND_CONSTANTS| == |FIRST_PRIMES| == 64
    ensures forall t :: 0 <= t < 64 ==> IsRoundConstant(t)
  {
    hide IsRoundConstant;
    Constants0();
    Constants4();
    Constants8();
    Constants12();
    Constants16();
    Constants20();
    Constants24();
    Constants28();
    Constants32();
    Constants36();
    Constants40();
    Constants44();
    Constants48();
    Constants52();
    Constants56();
    Constants60();
  }

  lemma Constants0()
    ensures forall t :: 0 <= t < 4 ==> IsRoundConstant(t)
  {
    assert CubeRoot(FIRST_PRIMES[0], ROUND_CONSTANTS[0], 1);
    assert CubeRoot(FIRST_PRIMES[1], ROUND_CONSTANTS[1], 1);
    assert CubeRoot(FIRST_PRIMES[2], ROUND_CONSTANTS[2], 1);
    assert CubeRoot(FIRST_PRIMES[3], ROUND_CONSTANTS[3], 1);
  }

  lemma Constants4()
    ensures forall t :: 4 <= t < 8 ==> IsRoundConstant(t)
  {
    assert CubeRoot(FIRST_PRIMES[4], ROUND_CONSTANTS[4], 2);
    assert CubeRoot(FIRST_PRIMES[5], ROUND_CONSTANTS[5], 2);
    assert CubeRoot(FIRST_PRIMES[6], ROUND_CONSTANTS[6], 2);
    assert CubeRoot(FIRST_PRIMES[7], ROUND_CONSTANTS[7], 2);
  }

  lemma Constants8()
    ensures forall t :: 8 <= t < 12 ==> IsRoundConstant(t)
  {
    assert CubeRoot(FIRST_PRIMES[8], ROUND_CONSTANTS[8], 2);
    assert CubeRoot(FIRST_PRIMES[9], ROUND_CONSTANTS[9], 3);
    assert CubeRoot(FIRST_PRIMES[10], ROUND_CONSTANTS[10], 3);
    assert CubeRoot(FIRST_PRIMES[11], ROUND_CONSTANTS[11], 3);
  }

  lemma Constants12()
    ensures forall t :: 12 <= t < 16 ==> IsRoundConstant(t)
  {
    assert CubeRoot(FIRST_PRIMES[12], ROUND_CONSTANTS[12], 3);
    assert CubeRoot(FIRST_PRIMES[13], ROUND_CONSTANTS[13], 3);
    assert CubeRoot(FIRST_PRIMES[14], ROUND_CONSTANTS[14], 3);
    assert CubeRoot(FIRST_PRIMES[15], ROUND_CONSTANTS[15], 3);
  }

  lemma Constants16()
    ensures forall t :: 16 <= t < 20 ==> IsRoundConstant(t)
  {
    assert CubeRoot(FIRST_PRIMES[16], ROUND_CONSTANTS[16], 3);
    assert CubeRoot(FIRST_PRIMES[17], ROUND_CONSTANTS[17], 3);
    assert CubeRoot(FIRST_PRIMES[18], ROUND_CONSTANTS[18], 4);
    assert CubeRoot(FIRST_PRIMES[19], ROUND_CONSTANTS[19], 4);
  }

  lemma Constants20()
    ensures forall t :: 20 <= t < 24 ==> IsRoundConstant(t)
  {
    assert CubeRoot(FIRST_PRIMES[20], ROUND_CONSTANTS[20], 4);
    assert CubeRoot(FIRST_PRIMES[21], ROUND_CONSTANTS[21], 4);
    assert CubeRoot(FIRST_PRIMES[22], ROUND_CONSTANTS[22], 4);
    assert CubeRoot(FIRST_PRIMES[23], ROUND_CONSTANTS[23], 4);
  }

  lemma Constants24()
    ensures forall t :: 24 <= t < 28 ==> IsRoundConstant(t)
  {
    assert CubeRoot(FIRST_PRIMES[24], ROUND_CONSTANTS[24], 4);
    assert CubeRoot(FIRST_PRIMES[25], ROUND_CONSTANTS[25], 4);
    assert CubeRoot(FIRST_PRIMES[26], ROUND_CONSTANTS[26], 4);
    assert CubeRoot(FIRST_PRIMES[27], ROUND_CONSTANTS[27], 4);
  }

  lemma Constants28()
    ensures forall t :: 28 <= t < 32 ==> IsRoundConstant(t)
  {
    assert CubeRoot(FIRST_PRIMES[28], ROUND_CONSTANTS[28], 4);
    assert CubeRoot(FIRST_PRIMES[29], ROUND_CONSTANTS[29], 4);
    assert CubeRoot(FIRST_PRIMES[30], ROUND_CONSTANTS[30], 5);
    assert CubeRoot(FIRST_PRIMES[31], ROUND_CONSTANTS[31], 5);
  }

  lemma Constants32()
    ensures forall t :: 32 <= t < 36 ==> IsRoundConstant(t)
  {
    assert CubeRoot(FIRST_PRIMES[32], ROUND_CONSTANTS[32], 5);
    assert CubeRoot(FIRST_PRIMES[33], ROUND_CONSTANTS[33], 5);
    assert CubeRoot(FIRST_PRIMES[34], ROUND_CONSTANTS[34], 5);
    assert CubeRoot(FIRST_PRIMES[35], ROUND_CONSTANTS[35], 5);
  }

  lemma Constants36()
    ensures forall t :: 36 <= t < 40 ==> IsRoundConstant(t)
  {
    assert CubeRoot(FIRST_PRIMES[36], ROUND_CONSTANTS[36], 5);
    assert CubeRoot(FIRST_PRIMES[37], ROUND_CONSTANTS[37], 5);
    assert CubeRoot(FIRST_PRIMES[38], ROUND_CONSTANTS[38], 5);
    assert CubeRoot(FIRST_PRIMES[39], ROUND_CONSTANTS[39], 5);
  }

  lemma Constants40()
    ensures forall t :: 40 <= t < 44 ==> IsRoundConstant(t)
  {
    assert CubeRoot(FIRST_PRIMES[40], ROUND_CONSTANTS[40], 5);
    assert CubeRoot(FIRST_PRIMES[41], ROUND_CONSTANTS[41], 5);
    assert CubeRoot(FIRST_PRIMES[42], ROUND_CONSTANTS[42], 5);
    assert CubeRoot(FIRST_PRIMES[43], ROUND_CONSTANTS[43], 5);
  }

  lemma Constants44()
    ensures forall t :: 44 <= t < 48 ==> IsRoundConstant(t)
  {
    assert CubeRoot(FIRST_PRIMES[44], ROUND_CONSTANTS[44], 5);
    assert CubeRoot(FIRST_PRIMES[45], ROUND_CONSTANTS[45], 5);
    assert CubeRoot(FIRST_PRIMES[46], ROUND_CONSTANTS[46], 5);
    assert CubeRoot(FIRST_PRIMES[47], ROUND_CONSTANTS[47], 6);
  }

  lemma Constants48()
    ensures forall t :: 48 <= t < 52 ==> IsRoundConstant(t)
  {
    assert CubeRoot(FIRST_PRIMES[48], ROUND_CONSTANTS[48], 6);
    assert CubeRoot(FIRST_PRIMES[49], ROUND_CONSTANTS[49], 6);
    assert CubeRoot(FIRST_PRIMES[50], ROUND_CONSTANTS[50], 6);
    assert CubeRoot(FIRST_PRIMES[51], ROUND_CONSTANTS[51], 6);
  }

  lemma Constants52()
    ensures forall t :: 52 <= t < 56 ==> IsRoundConstant(t)
  {
    assert CubeRoot(FIRST_PRIMES[52], ROUND_CONSTANTS[52], 6);
    assert CubeRoot(FIRST_PRIMES[53], ROUND_CONSTANTS[53], 6);
    assert CubeRoot(FIRST_PRIMES[54], ROUND_CONSTANTS[54], 6);
    assert CubeRoot(FIRST_PRIMES[55], ROUND_CONSTANTS[55], 6);
  }

  lemma Constants56()
    ensures forall t :: 56 <= t < 60 ==> IsRoundConstant(t)
  {
    assert CubeRoot(FIRST_PRIMES[56], ROUND_CONSTANTS[56], 6);
    assert CubeRoot(FIRST_PRIMES[57], ROUND_CONSTANTS[57], 6);
    assert CubeRoot(FIRST_PRIMES[58], ROUND_CONSTANTS[58], 6);
    assert CubeRoot(FIRST_PRIMES[59], ROUND_CONSTANTS[59], 6);
  }

  lemma Constants60()
    ensures forall t :: 60 <= t < 64 ==> IsRoundConstant(t)
  {
    assert CubeRoot(FIRST_PRIMES[60], ROUND_CONSTANTS[60], 6);
    assert CubeRoot(FIRST_PRIMES[61], ROUND_CONSTANTS[61], 6);
    assert CubeRoot(FIRST_PRIMES[62], ROUND_CONSTANTS[62], 6);
    assert CubeRoot(FIRST_PRIMES[63], ROUND_CONSTANTS[63], 6);
  }
}
