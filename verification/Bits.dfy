/** Bit strings, most significant bit first, and the integers they denote. */
module Bits {

  function Pow2(n: nat): (r: nat)
    ensures r >= 1
  {
    if n == 0 then 1 else 2 * Pow2(n - 1)
  }

  lemma Pow2Add(m: nat, n: nat)
    ensures Pow2(m + n) == Pow2(m) * Pow2(n)
  {
    if n > 0 {
      Pow2Add(m, n - 1);
      assert Pow2(m + n) == 2 * Pow2(m + (n - 1));
      assert Pow2(m) * Pow2(n) == 2 * (Pow2(m) * Pow2(n - 1));
    }
  }

  /** The low n bits of x in two's complement. */
  function BitsOf(x: int, n: nat): (b: seq<bool>)
    ensures |b| == n
    decreases n, x
  {
    if n == 0 then [] else BitsOf(x / 2, n - 1) + [x % 2 == 1]
  }

  function ToNat(b: seq<bool>): (r: nat)
    ensures r < Pow2(|b|)
  {
    if |b| == 0 then 0
    else 2 * ToNat(b[..|b| - 1]) + if b[|b| - 1] then 1 else 0
  }

  function Zeros(n: nat): (b: seq<bool>)
    ensures |b| == n && forall i :: 0 <= i < n ==> !b[i]
  {
    seq(n, i => false)
  }

  lemma ZerosAppend(m: nat, n: nat)
    ensures Zeros(m) + Zeros(n) == Zeros(m + n)
  {
  }

  lemma {:induction false} BitsOfToNat(b: seq<bool>)
    ensures BitsOf(ToNat(b), |b|) == b
  {
    if |b| > 0 {
      BitsOfToNat(b[..|b| - 1]);
      assert b == b[..|b| - 1] + [b[|b| - 1]];
    }
  }

  lemma {:induction false} ToNatBitsOf(x: int, n: nat)
    ensures ToNat(BitsOf(x, n)) == x % Pow2(n)
    decreases n
  {
    if n > 0 {
      ToNatBitsOf(x / 2, n - 1);
      var p := Pow2(n - 1);
      assert BitsOf(x, n)[..n - 1] == BitsOf(x / 2, n - 1);
      HalfMod(x, p);
    }
  }

  lemma HalfMod(x: int, p: nat)
    requires p >= 1
    ensures 2 * (x / 2 % p) + x % 2 == x % (2 * p)
  {
    var q := x / 2 / p;
    var r := x / 2 % p;
    assert x / 2 == q * p + r;
    assert x == q * (2 * p) + (2 * r + x % 2);
    ModUnique(x, 2 * p, q, 2 * r + x % 2);
  }

  lemma ModUnique(x: int, m: nat, q: int, r: int)
    requires x == q * m + r && 0 <= r < m
    ensures x % m == r && x / m == q
  {
    var d := x / m - q;
    assert r == d * m + x % m;
    MulMonotone(1, d, m);
    MulMonotone(d, -1, m);
  }

  lemma MulMonotone(a: int, b: int, m: nat)
    ensures a <= b ==> a * m <= b * m
  {
    assert (b - a) * m == b * m - a * m;
  }

  /** Only the value modulo 2^n matters for the low n bits. */
  lemma BitsOfCongruent(x: int, y: int, n: nat)
    requires x % Pow2(n) == y % Pow2(n)
    ensures BitsOf(x, n) == BitsOf(y, n)
  {
    ToNatBitsOf(x, n);
    ToNatBitsOf(y, n);
    BitsOfToNat(BitsOf(x, n));
    BitsOfToNat(BitsOf(y, n));
  }

  /** Dropping the last k bits divides by 2^k. */
  lemma {:induction false} BitsOfPrefix(x: int, n: nat, k: nat)
    requires k <= n
    ensures BitsOf(x, n)[..n - k] == BitsOf(x / Pow2(k), n - k)
    decreases n
  {
    if k > 0 {
      BitsOfPrefix(x / 2, n - 1, k - 1);
      DivDiv(x, Pow2(k - 1));
      assert BitsOf(x, n)[..n - k] == BitsOf(x / 2, n - 1)[..n - k];
    } else {
      assert BitsOf(x, n)[..n] == BitsOf(x, n);
    }
  }

  lemma DivDiv(x: int, p: nat)
    requires p >= 1
    ensures x / 2 / p == x / (2 * p)
  {
    var q := x / 2 / p;
    var r := x / 2 % p;
    assert x == q * (2 * p) + (2 * r + x % 2);
    ModUnique(x, 2 * p, q, 2 * r + x % 2);
  }

  /** Keeping the last m bits forgets everything above 2^m. */
  lemma {:induction false} BitsOfSuffix(x: int, n: nat, m: nat)
    requires m <= n
    ensures BitsOf(x, n)[n - m..] == BitsOf(x, m)
    decreases n
  {
    if m > 0 {
      BitsOfSuffix(x / 2, n - 1, m - 1);
      assert BitsOf(x, n)[n - m..] == BitsOf(x / 2, n - 1)[n - m..] + [x % 2 == 1];
    }
  }

  /** A value below 2^m has only zeros above its low m bits. */
  lemma {:induction false} BitsOfSmall(x: int, n: nat, m: nat)
    requires m <= n && 0 <= x < Pow2(m)
    ensures BitsOf(x, n) == Zeros(n - m) + BitsOf(x, m)
  {
    if m == 0 {
      BitsOfZero(n);
      assert BitsOf(x, n) == Zeros(n) + [];
    } else {
      BitsOfSmall(x / 2, n - 1, m - 1);
    }
  }

  lemma {:induction false} BitsOfZero(n: nat)
    ensures BitsOf(0, n) == Zeros(n)
  {
    if n > 0 {
      BitsOfZero(n - 1);
    }
  }

  /** Multiplying by 2^k appends k zeros. */
  lemma {:induction false} BitsOfShifted(x: int, n: nat, k: nat)
    requires k <= n
    ensures BitsOf(x * Pow2(k), n) == BitsOf(x, n - k) + Zeros(k)
  {
    if k > 0 {
      BitsOfShifted(x, n - 1, k - 1);
      assert x * Pow2(k) == 2 * (x * Pow2(k - 1));
      assert Zeros(k) == Zeros(k - 1) + [false];
    } else {
      assert BitsOf(x, n) + Zeros(0) == BitsOf(x, n);
    }
  }

  lemma MulTwice(n: int, p: int)
    ensures n * (2 * p) == 2 * (n * p)
  {
  }

  lemma {:induction false} ToNatAppend(a: seq<bool>, b: seq<bool>)
    ensures ToNat(a + b) == ToNat(a) * Pow2(|b|) + ToNat(b)
  {
    if |b| == 0 {
      assert a + b == a;
    } else {
      var c := b[..|b| - 1];
      var n := ToNat(a);
      ToNatAppend(a, c);
      assert (a + b)[..|a + b| - 1] == a + c;
      assert (a + b)[|a + b| - 1] == b[|b| - 1];
      var p := Pow2(|c|);
      assert Pow2(|b|) == 2 * p;
      MulTwice(n, p);
    }
  }
}
