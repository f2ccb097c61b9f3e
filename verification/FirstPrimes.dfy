/** The first 64 primes, by trial division with the primes up to 17; 19 * 19 is more than 311. */
module FirstPrimes {
  import opened Bits

  const ROW_0: seq<nat> := [2, 3, 5, 7, 11, 13, 17, 19]
  const ROW_1: seq<nat> := [23, 29, 31, 37, 41, 43, 47, 53]
  const ROW_2: seq<nat> := [59, 61, 67, 71, 73, 79, 83, 89]
  const ROW_3: seq<nat> := [97, 101, 103, 107, 109, 113, 127, 131]
  const ROW_4: seq<nat> := [137, 139, 149, 151, 157, 163, 167, 173]
  const ROW_5: seq<nat> := [179, 181, 191, 193, 197, 199, 211, 223]
  const ROW_6: seq<nat> := [227, 229, 233, 239, 241, 251, 257, 263]
  const ROW_7: seq<nat> := [269, 271, 277, 281, 283, 293, 307, 311]

  function FourRows(a: seq<nat>, b: seq<nat>, c: seq<nat>, d: seq<nat>): seq<nat> {
    a + b + c + d
  }

  const FIRST_PRIMES: seq<nat> :=
    FourRows(ROW_0, ROW_1, ROW_2, ROW_3) + FourRows(ROW_4, ROW_5, ROW_6, ROW_7)

  predicate IsPrime(n: nat) {
    n >= 2 && forall d :: 2 <= d < n ==> n % d != 0
  }

  /** Divisible by no prime up to 17. */
  predicate Rough(n: nat) {
    n % 2 != 0 && n % 3 != 0 && n % 5 != 0 && n % 7 != 0 && n % 11 != 0 && n % 13 != 0 && n % 17 != 0
  }

  lemma Multiple(p: nat, m: nat)
    requires p > 0
    ensures (p * m) % p == 0
  {
    ModUnique(p * m, p, m, 0);
  }

  lemma DividesThrough(n: nat, p: nat, q: nat)
    requires p > 0 && q > 0 && n % (p * q) == 0
    ensures n % p == 0
  {
    var e := n / (p * q);
    assert n == p * q * e == p * (q * e);
    Multiple(p, q * e);
  }

  lemma SmallFactor(n: nat, d: nat)
    requires 2 <= d <= 18 && n % d == 0
    ensures !Rough(n)
  {
    if d % 2 == 0 {
      DividesThrough(n, 2, d / 2);
    } else if d % 3 == 0 {
      DividesThrough(n, 3, d / 3);
    } else {
      assert d == 5 || d == 7 || d == 11 || d == 13 || d == 17;
    }
  }

  lemma SmallerFactor(n: nat, d: nat) returns (m: nat)
    requires 2 <= d < n < 361 && n % d == 0
    ensures 2 <= m <= 18 && n % m == 0
  {
    var e := n / d;
    assert n == d * e;
    if d <= 18 {
      m := d;
    } else {
      assert e == 1 ==> n == d;
      Product(d, e);
      m := e;
      assert n == e * d;
      Multiple(e, d);
    }
  }

  lemma Product(d: nat, e: nat)
    ensures d >= 19 && e >= 19 ==> d * e >= 361
  {
  }

  lemma PrimeExactly(n: nat)
    requires 19 <= n < 361
    ensures IsPrime(n) <==> Rough(n)
  {
    if Rough(n) {
      forall d | 2 <= d < n ensures n % d != 0 {
        if n % d == 0 {
          var m := SmallerFactor(n, d);
          SmallFactor(n, m);
        }
      }
    }
  }

  lemma Row0(n: nat)
    requires n <= 19
    ensures IsPrime(n) <==> n in ROW_0
  {
    if n in ROW_0 {
      forall d | 2 <= d < n ensures n % d != 0 {
      }
    } else if n >= 2 {
      assert n % 2 == 0 || n % 3 == 0;
    }
  }

  /** Where a number without the factors 2, 3 and 5 stands modulo 30. */
  lemma Wheel(n: nat)
    requires n % 2 != 0 && n % 3 != 0 && n % 5 != 0
    ensures n % 30 in [1, 7, 11, 13, 17, 19, 23, 29]
  {
    var q, r := n / 30, n % 30;
    assert n == 30 * q + r;
    assert n == 2 * (15 * q) + r && n == 3 * (10 * q) + r && n == 5 * (6 * q) + r;
    SameResidue(2, 15 * q, r);
    SameResidue(3, 10 * q, r);
    SameResidue(5, 6 * q, r);
    SmallWheel(r);
  }

  lemma SameResidue(p: nat, m: nat, r: nat)
    requires p > 0
    ensures (p * m + r) % p == r % p
  {
    assert p * m + r == (m + r / p) * p + r % p;
    ModUnique(p * m + r, p, m + r / p, r % p);
  }

  lemma SmallWheel(r: nat)
    requires r < 30 && r % 2 != 0 && r % 3 != 0 && r % 5 != 0
    ensures r in [1, 7, 11, 13, 17, 19, 23, 29]
  {
  }

  lemma From20(n: nat)
    requires 20 <= n <= 29
    ensures Rough(n) <==> n in ROW_1
  {
    if n % 2 != 0 && n % 3 != 0 && n % 5 != 0 {
      Wheel(n);
      assert n in [23, 29];
    }
  }

  lemma From30(n: nat)
    requires 30 <= n <= 59
    ensures Rough(n) <==> n in ROW_1 || n in ROW_2
  {
    if n % 2 != 0 && n % 3 != 0 && n % 5 != 0 {
      Wheel(n);
      assert n in [31, 37, 41, 43, 47, 49, 53, 59];
    }
  }

  lemma From60(n: nat)
    requires 60 <= n <= 89
    ensures Rough(n) <==> n in ROW_2
  {
    if n % 2 != 0 && n % 3 != 0 && n % 5 != 0 {
      Wheel(n);
      assert n in [61, 67, 71, 73, 77, 79, 83, 89];
    }
  }

  lemma From90(n: nat)
    requires 90 <= n <= 119
    ensures Rough(n) <==> n in ROW_3
  {
    if n % 2 != 0 && n % 3 != 0 && n % 5 != 0 {
      Wheel(n);
      assert n in [91, 97, 101, 103, 107, 109, 113, 119];
    }
  }

  lemma From120(n: nat)
    requires 120 <= n <= 149
    ensures Rough(n) <==> n in ROW_3 || n in ROW_4
  {
    if n % 2 != 0 && n % 3 != 0 && n % 5 != 0 {
      Wheel(n);
      assert n in [121, 127, 131, 133, 137, 139, 143, 149];
    }
  }

  lemma From150(n: nat)
    requires 150 <= n <= 179
    ensures Rough(n) <==> n in ROW_4 || n in ROW_5
  {
    if n % 2 != 0 && n % 3 != 0 && n % 5 != 0 {
      Wheel(n);
      assert n in [151, 157, 161, 163, 167, 169, 173, 179];
    }
  }

  lemma From180(n: nat)
    requires 180 <= n <= 209
    ensures Rough(n) <==> n in ROW_5
  {
    if n % 2 != 0 && n % 3 != 0 && n % 5 != 0 {
      Wheel(n);
      assert n in [181, 187, 191, 193, 197, 199, 203, 209];
    }
  }

  lemma From210(n: nat)
    requires 210 <= n <= 239
    ensures Rough(n) <==> n in ROW_5 || n in ROW_6
  {
    if n % 2 != 0 && n % 3 != 0 && n % 5 != 0 {
      Wheel(n);
      assert n in [211, 217, 221, 223, 227, 229, 233, 239];
    }
  }

  lemma From240(n: nat)
    requires 240 <= n <= 269
    ensures Rough(n) <==> n in ROW_6 || n in ROW_7
  {
    if n % 2 != 0 && n % 3 != 0 && n % 5 != 0 {
      Wheel(n);
      assert n in [241, 247, 251, 253, 257, 259, 263, 269];
    }
  }

  lemma From270(n: nat)
    requires 270 <= n <= 299
    ensures Rough(n) <==> n in ROW_7
  {
    if n % 2 != 0 && n % 3 != 0 && n % 5 != 0 {
      Wheel(n);
      assert n in [271, 277, 281, 283, 287, 289, 293, 299];
    }
  }

  lemma From300(n: nat)
    requires 300 <= n <= 311
    ensures Rough(n) <==> n in ROW_7
  {
    if n % 2 != 0 && n % 3 != 0 && n % 5 != 0 {
      Wheel(n);
      assert n in [301, 307, 311];
    }
  }

  predicate InALaterRow(n: nat) {
    n in ROW_1 || n in ROW_2 || n in ROW_3 || n in ROW_4 || n in ROW_5 || n in ROW_6 || n in ROW_7
  }

  lemma InRows(n: nat)
    ensures n in FIRST_PRIMES <==> n in ROW_0 || InALaterRow(n)
  {
    hide ROW_0, ROW_1, ROW_2, ROW_3, ROW_4, ROW_5, ROW_6, ROW_7;
  }

  lemma RowsAreApart(n: nat)
    ensures n in ROW_0 ==> n <= 19
    ensures n in ROW_1 ==> 20 <= n <= 53
    ensures n in ROW_2 ==> 54 <= n <= 89
    ensures n in ROW_3 ==> 90 <= n <= 131
    ensures n in ROW_4 ==> 132 <= n <= 173
    ensures n in ROW_5 ==> 174 <= n <= 223
    ensures n in ROW_6 ==> 224 <= n <= 263
    ensures n in ROW_7 ==> 264 <= n <= 311
  {
  }

  lemma LaterRowsAreRough(n: nat)
    requires 20 <= n < 312
    ensures Rough(n) <==> InALaterRow(n)
  {
    hide Rough, ROW_0, ROW_1, ROW_2, ROW_3, ROW_4, ROW_5, ROW_6, ROW_7;
    RowsAreApart(n);
    if n <= 29 {
      From20(n);
    } else if n <= 59 {
      From30(n);
    } else if n <= 89 {
      From60(n);
    } else if n <= 119 {
      From90(n);
    } else if n <= 149 {
      From120(n);
    } else if n <= 179 {
      From150(n);
    } else if n <= 209 {
      From180(n);
    } else if n <= 239 {
      From210(n);
    } else if n <= 269 {
      From240(n);
    } else if n <= 299 {
      From270(n);
    } else {
      From300(n);
    }
  }

  /** The list holds exactly the primes below 312. */
  lemma FirstPrimesAreThePrimes(n: nat)
    ensures n in FIRST_PRIMES <==> IsPrime(n) && n < 312
  {
    hide Rough, IsPrime, FIRST_PRIMES, ROW_0, ROW_1, ROW_2, ROW_3, ROW_4, ROW_5, ROW_6, ROW_7;
    InRows(n);
    RowsAreApart(n);
    if n <= 19 {
      Row0(n);
    } else if n < 312 {
      PrimeExactly(n);
      LaterRowsAreRough(n);
    }
  }

  function Row(r: nat): seq<nat>
    requires r < 8
  {
    match r
    case 0 => ROW_0
    case 1 => ROW_1
    case 2 => ROW_2
    case 3 => ROW_3
    case 4 => ROW_4
    case 5 => ROW_5
    case 6 => ROW_6
    case 7 => ROW_7
  }

  function RowStart(r: nat): nat
    requires r <= 8
  {
    [0, 20, 54, 90, 132, 174, 224, 264, 312][r]
  }

  lemma RowAscends(r: nat, i: nat)
    requires r < 8 && i < 8
    ensures |Row(r)| == 8 && RowStart(r) <= Row(r)[i] < RowStart(r + 1)
    ensures i < 7 ==> Row(r)[i] < Row(r)[i + 1]
  {
  }

  lemma PlaceInFour(a: seq<nat>, b: seq<nat>, c: seq<nat>, d: seq<nat>, i: nat)
    requires |a| == |b| == |c| == |d| == 8 && i < 32
    ensures |FourRows(a, b, c, d)| == 32 && FourRows(a, b, c, d)[i] == [a, b, c, d][i / 8][i % 8]
  {
    assert i / 8 == 0 || i / 8 == 1 || i / 8 == 2 || i / 8 == 3;
  }

  lemma PlaceInRow(i: nat)
    requires i < 64
    ensures |FIRST_PRIMES| == 64 && |Row(i / 8)| == 8 && FIRST_PRIMES[i] == Row(i / 8)[i % 8]
  {
    assert |ROW_0| == |ROW_1| == |ROW_2| == |ROW_3| == |ROW_4| == |ROW_5| == |ROW_6| == |ROW_7| == 8;
    hide ROW_0, ROW_1, ROW_2, ROW_3, ROW_4, ROW_5, ROW_6, ROW_7, FourRows;
    var j := if i < 32 then i else i - 32;
    PlaceInFour(ROW_0, ROW_1, ROW_2, ROW_3, j);
    PlaceInFour(ROW_4, ROW_5, ROW_6, ROW_7, j);
    assert j / 8 == 0 || j / 8 == 1 || j / 8 == 2 || j / 8 == 3;
    assert i % 8 == j % 8 && i / 8 == j / 8 + if i < 32 then 0 else 4;
  }

  /** In ascending order, so they are the first 64 primes, and the first eight of them the first eight. */
  lemma {:induction false} FirstPrimesAscend(i: nat, j: nat)
    requires i < j < 64
    ensures |FIRST_PRIMES| == 64 && FIRST_PRIMES[i] < FIRST_PRIMES[j]
    decreases j - i
  {
    hide ROW_0, ROW_1, ROW_2, ROW_3, ROW_4, ROW_5, ROW_6, ROW_7, FIRST_PRIMES, Row, RowStart;
    if i + 1 < j {
      FirstPrimesAscend(i, i + 1);
      FirstPrimesAscend(i + 1, j);
    } else {
      PlaceInRow(i);
      PlaceInRow(j);
      RowAscends(i / 8, i % 8);
      RowAscends(j / 8, j % 8);
      assert (i % 8 == 7 && j / 8 == i / 8 + 1) || (i / 8 == j / 8 && i % 8 + 1 == j % 8);
    }
  }
}
