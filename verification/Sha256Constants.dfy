/**
 Where the constants of SHA-256 come from: the first 32 bits of the fractional parts of the cube
 roots of the first 64 primes (section 4.2.2 of FIPS 180-2), and of the square roots of the first
 eight (section 5.3.2).
 */
module Sha256Constants {
  import opened Sha256Spec
  import opened Arith

  // ----- the first 64 primes -----

  const P0: seq<nat> := [2, 3, 5, 7, 11, 13, 17, 19]
  const P1: seq<nat> := [23, 29, 31, 37, 41, 43, 47, 53]
  const P2: seq<nat> := [59, 61, 67, 71, 73, 79, 83, 89]
  const P3: seq<nat> := [97, 101, 103, 107, 109, 113, 127, 131]
  const P4: seq<nat> := [137, 139, 149, 151, 157, 163, 167, 173]
  const P5: seq<nat> := [179, 181, 191, 193, 197, 199, 211, 223]
  const P6: seq<nat> := [227, 229, 233, 239, 241, 251, 257, 263]
  const P7: seq<nat> := [269, 271, 277, 281, 283, 293, 307, 311]

  const PRIMES: seq<nat> := P0 + P1 + P2 + P3 + P4 + P5 + P6 + P7

  predicate Factor(d: nat, n: nat)
    requires d > 0
  {
    n % d == 0
  }

  ghost predicate IsPrime(n: nat)
  {
    n >= 2 && forall d :: 2 <= d < n ==> !Factor(d, n)
  }

  /** No prime below 18 is a proper factor. */
  predicate Trial(n: nat)
  {
    && n >= 2
    && (n > 2 ==> n % 2 != 0) && (n > 3 ==> n % 3 != 0) && (n > 5 ==> n % 5 != 0) && (n > 7 ==> n % 7 != 0)
    && (n > 11 ==> n % 11 != 0) && (n > 13 ==> n % 13 != 0) && (n > 17 ==> n % 17 != 0)
  }

  lemma SmallFactor(n: nat, d: nat)
    requires 2 <= d < 18 && d < n && n % d == 0
    ensures !Trial(n)
  {
    var q := n / d;
    assert n == d * q;
    if d % 2 == 0 { Multiple(n, 2, d / 2, q); }
    else if d % 3 == 0 { Multiple(n, 3, d / 3, q); }
    else if d == 5 || d == 15 { Multiple(n, 5, d / 5, q); }
  }

  lemma Multiple(n: nat, p: nat, k: nat, q: nat)
    requires p > 0 && n == p * k * q
    ensures n % p == 0
  {
    Associate(p, k, q);
    Swap(p, k * q);
    Divides(n, k * q, 0, p);
  }

  lemma Cofactor(n: nat, d: nat)
    requires 18 <= d < n < 324 && n % d == 0
    ensures 2 <= n / d < 18 && n % (n / d) == 0
  {
    var q := n / d;
    assert n == q * d;
    if q >= 18 {
      Grows(q, d);
    }
    Swap(q, d);
    Divides(n, d, 0, q);
  }

  lemma Grows(q: nat, d: nat)
    requires q >= 18 && d >= 18
    ensures q * d >= 324
  {
    Distribute(18, q - 18, d);
    AtLeastZero(q - 18, d);
  }

  lemma TrialIsPrime(n: nat)
    requires n < 324
    ensures Trial(n) <==> IsPrime(n)
  {
    if Trial(n) {
      forall d | 2 <= d < n ensures !Factor(d, n) {
        if Factor(d, n) {
          if d < 18 {
            SmallFactor(n, d);
          } else {
            Cofactor(n, d);
            SmallFactor(n, n / d);
          }
        }
      }
    } else if IsPrime(n) {
      PrimeTrial(n);
    }
  }

  lemma PrimeTrial(n: nat)
    requires IsPrime(n)
    ensures Trial(n)
  {
    assert n > 2 ==> !Factor(2, n);
    assert n > 3 ==> !Factor(3, n);
    assert n > 5 ==> !Factor(5, n);
    assert n > 7 ==> !Factor(7, n);
    assert n > 11 ==> !Factor(11, n);
    assert n > 13 ==> !Factor(13, n);
    assert n > 17 ==> !Factor(17, n);
  }

  /** No number from a up to b passes. */
  predicate NonePass(a: nat, b: nat)
    decreases b - a
  {
    a >= b || (!Trial(a) && NonePass(a + 1, b))
  }

  lemma {:induction false} NonePasses(a: nat, b: nat, n: nat)
    requires NonePass(a, b) && a <= n < b
    ensures !Trial(n)
    decreases b - a
  {
    hide Trial;
    if a < n { NonePasses(a + 1, b, n); }
  }

  /** Two neighbours in the list of primes. */
  predicate Next(p: nat, q: nat)
  {
    Trial(p) && p < q <= 313 && NonePass(p + 1, q)
  }

  lemma Next0()
    ensures Next(2, 3)
    ensures Next(3, 5)
    ensures Next(5, 7)
    ensures Next(7, 11)
    ensures Next(11, 13)
    ensures Next(13, 17)
    ensures Next(17, 19)
    ensures Next(19, 23)
  {
  }

  lemma Next8()
    ensures Next(23, 29)
    ensures Next(29, 31)
    ensures Next(31, 37)
    ensures Next(37, 41)
    ensures Next(41, 43)
    ensures Next(43, 47)
    ensures Next(47, 53)
    ensures Next(53, 59)
  {
  }

  lemma Next16()
    ensures Next(59, 61)
    ensures Next(61, 67)
    ensures Next(67, 71)
    ensures Next(71, 73)
    ensures Next(73, 79)
    ensures Next(79, 83)
    ensures Next(83, 89)
    ensures Next(89, 97)
  {
  }

  lemma Next24()
    ensures Next(97, 101)
    ensures Next(101, 103)
    ensures Next(103, 107)
    ensures Next(107, 109)
    ensures Next(109, 113)
    ensures Next(113, 127)
    ensures Next(127, 131)
    ensures Next(131, 137)
  {
  }

  lemma Next32()
    ensures Next(137, 139)
    ensures Next(139, 149)
    ensures Next(149, 151)
    ensures Next(151, 157)
    ensures Next(157, 163)
    ensures Next(163, 167)
    ensures Next(167, 173)
    ensures Next(173, 179)
  {
  }

  lemma Next40()
    ensures Next(179, 181)
    ensures Next(181, 191)
    ensures Next(191, 193)
    ensures Next(193, 197)
    ensures Next(197, 199)
    ensures Next(199, 211)
    ensures Next(211, 223)
    ensures Next(223, 227)
  {
  }

  lemma Next48()
    ensures Next(227, 229)
    ensures Next(229, 233)
    ensures Next(233, 239)
    ensures Next(239, 241)
    ensures Next(241, 251)
    ensures Next(251, 257)
    ensures Next(257, 263)
    ensures Next(263, 269)
  {
  }

  lemma Next56()
    ensures Next(269, 271)
    ensures Next(271, 277)
    ensures Next(277, 281)
    ensures Next(281, 283)
    ensures Next(283, 293)
    ensures Next(293, 307)
    ensures Next(307, 311)
    ensures Next(311, 313)
  {
  }

  /** The numbers of the row are primes, each the next after the one before it, and q is the next after the last. */
  predicate Neighbours(row: seq<nat>, q: nat)
  {
    |row| == 8 && forall j :: 0 <= j < 8 ==> Next(row[j], if j == 7 then q else row[j + 1])
  }

  lemma Row0()
    ensures Neighbours(P0, 23)
  {
    hide Next;
    Next0();
  }

  lemma Row1()
    ensures Neighbours(P1, 59)
  {
    hide Next;
    Next8();
  }

  lemma Row2()
    ensures Neighbours(P2, 97)
  {
    hide Next;
    Next16();
  }

  lemma Row3()
    ensures Neighbours(P3, 137)
  {
    hide Next;
    Next24();
  }

  lemma Row4()
    ensures Neighbours(P4, 179)
  {
    hide Next;
    Next32();
  }

  lemma Row5()
    ensures Neighbours(P5, 227)
  {
    hide Next;
    Next40();
  }

  lemma Row6()
    ensures Neighbours(P6, 269)
  {
    hide Next;
    Next48();
  }

  lemma Row7()
    ensures Neighbours(P7, 313)
  {
    hide Next;
    Next56();
  }

  lemma InRow(row: seq<nat>, q: nat, j: nat)
    requires Neighbours(row, q) && j < 8
    ensures |row| == 8 && Next(row[j], if j == 7 then q else row[j + 1])
  {
    hide Next;
  }

  function PrimeRow(r: nat): (row: seq<nat>)
    requires r < 8
    ensures |row| == 8
  {
    [P0, P1, P2, P3, P4, P5, P6, P7][r]
  }

  lemma InList(i: nat)
    requires i < 64
    ensures |PRIMES| == 64 && PRIMES[0] == 2 && Next(PRIMES[i], if i == 63 then 313 else PRIMES[i + 1])
  {
    assert PrimeRow(0)[0] == 2;
    hide Next, Neighbours, PrimeRow, PRIMES;
    var r, j := i / 8, i % 8;
    ListRows(0);
    ListRows(i);
    AllRows(r);
    InRow(PrimeRow(r), if r == 7 then 313 else PrimeRow(r + 1)[0], j);
    if j < 7 {
      ListRows(i + 1);
      assert (i + 1) / 8 == r && (i + 1) % 8 == j + 1;
    } else if r < 7 {
      ListRows(i + 1);
      assert (i + 1) / 8 == r + 1 && (i + 1) % 8 == 0;
    }
  }

  /** Eight rows of eight, one after the other. */
  lemma Joined<T>(a: seq<T>, b: seq<T>, c: seq<T>, d: seq<T>, e: seq<T>, f: seq<T>, g: seq<T>, h: seq<T>, i: nat)
    requires |a| == |b| == |c| == |d| == |e| == |f| == |g| == |h| == 8 && i < 64
    ensures (a + b + c + d + e + f + g + h)[i] == [a, b, c, d, e, f, g, h][i / 8][i % 8]
  {
    var s4 := a + b + c + d;
    var s := s4 + e + f + g + h;
    if i < 32 {
      assert s[i] == s4[i];
    }
  }

  lemma AllRows(r: nat)
    requires r < 8
    ensures Neighbours(PrimeRow(r), if r == 7 then 313 else PrimeRow(r + 1)[0])
  {
    hide Neighbours;
    Row0();
    Row1();
    Row2();
    Row3();
    Row4();
    Row5();
    Row6();
    Row7();
  }

  lemma ListRows(i: nat)
    requires i < 64
    ensures |PRIMES| == 64
    ensures PRIMES[i] == PrimeRow(i / 8)[i % 8]
  {
    assert |P0| == |P1| == |P2| == |P3| == |P4| == |P5| == |P6| == |P7| == 8;
    Joined(P0, P1, P2, P3, P4, P5, P6, P7, i);
    hide P0, P1, P2, P3, P4, P5, P6, P7;
  }

  lemma {:induction false} NoneLeftOut(i: nat, n: nat)
    requires i < 64 == |PRIMES| && n < PRIMES[i]
    ensures Trial(n) ==> n in PRIMES[..i]
  {
    hide PRIMES, NonePass;
    InList(0);
    if i > 0 {
      InList(i - 1);
      if n < PRIMES[i - 1] { NoneLeftOut(i - 1, n); }
      else if n > PRIMES[i - 1] { NonePasses(PRIMES[i - 1] + 1, PRIMES[i], n); }
      else { assert PRIMES[..i][i - 1] == n; }
    }
  }

  lemma {:induction false} Rise(i: nat, j: nat)
    requires j < i < 64 == |PRIMES|
    ensures PRIMES[j] < PRIMES[i]
    decreases i
  {
    hide PRIMES, NonePass;
    InList(i - 1);
    if j < i - 1 { Rise(i - 1, j); }
  }

  /** The list is the first 64 primes: all are prime, they rise, and none is left out. */
  lemma FirstPrimes(i: nat)
    requires i < 64
    ensures |PRIMES| == 64 && IsPrime(PRIMES[i])
    ensures forall j :: 0 <= j < i ==> PRIMES[j] < PRIMES[i]
    ensures forall n :: n < PRIMES[i] && IsPrime(n) ==> n in PRIMES[..i]
  {
    hide PRIMES, IsPrime, Trial, NonePass;
    InList(i);
    TrialIsPrime(PRIMES[i]);
    forall j | 0 <= j < i ensures PRIMES[j] < PRIMES[i] {
      Rise(i, j);
    }
    forall n | n < PRIMES[i] && IsPrime(n) ensures n in PRIMES[..i] {
      TrialIsPrime(n);
      NoneLeftOut(i, n);
    }
  }

  // ----- the roots -----

  const TWO96: nat := 0x1_0000_0000_0000_0000_0000_0000

  function Square(n: nat): (r: nat) { n * n }

  function Cube(n: nat): (r: nat) { n * n * n }

  /** The number of 32 bits behind the point of the square root of p, whose integer part is n. */
  predicate SquareRoot(p: nat, n: nat, k: nat)
  {
    && k < TWO32 && Square(n) <= p < Square(n + 1)
    && Square(n * TWO32 + k) <= p * TWO64 < Square(n * TWO32 + k + 1)
  }

  /** The same for the cube root. */
  predicate CubeRoot(p: nat, n: nat, k: nat)
  {
    && k < TWO32 && Cube(n) <= p < Cube(n + 1)
    && Cube(n * TWO32 + k) <= p * TWO96 < Cube(n * TWO32 + k + 1)
  }

  lemma Cubes0()
    ensures CubeRoot(2, 1, 0x428a2f98)
    ensures CubeRoot(3, 1, 0x71374491)
    ensures CubeRoot(5, 1, 0xb5c0fbcf)
    ensures CubeRoot(7, 1, 0xe9b5dba5)
    ensures CubeRoot(11, 2, 0x3956c25b)
    ensures CubeRoot(13, 2, 0x59f111f1)
    ensures CubeRoot(17, 2, 0x923f82a4)
    ensures CubeRoot(19, 2, 0xab1c5ed5)
  {
  }

  lemma Cubes8()
    ensures CubeRoot(23, 2, 0xd807aa98)
    ensures CubeRoot(29, 3, 0x12835b01)
    ensures CubeRoot(31, 3, 0x243185be)
    ensures CubeRoot(37, 3, 0x550c7dc3)
    ensures CubeRoot(41, 3, 0x72be5d74)
    ensures CubeRoot(43, 3, 0x80deb1fe)
    ensures CubeRoot(47, 3, 0x9bdc06a7)
    ensures CubeRoot(53, 3, 0xc19bf174)
  {
  }

  lemma Cubes16()
    ensures CubeRoot(59, 3, 0xe49b69c1)
    ensures CubeRoot(61, 3, 0xefbe4786)
    ensures CubeRoot(67, 4, 0x0fc19dc6)
    ensures CubeRoot(71, 4, 0x240ca1cc)
    ensures CubeRoot(73, 4, 0x2de92c6f)
    ensures CubeRoot(79, 4, 0x4a7484aa)
    ensures CubeRoot(83, 4, 0x5cb0a9dc)
    ensures CubeRoot(89, 4, 0x76f988da)
  {
  }

  lemma Cubes24()
    ensures CubeRoot(97, 4, 0x983e5152)
    ensures CubeRoot(101, 4, 0xa831c66d)
    ensures CubeRoot(103, 4, 0xb00327c8)
    ensures CubeRoot(107, 4, 0xbf597fc7)
    ensures CubeRoot(109, 4, 0xc6e00bf3)
    ensures CubeRoot(113, 4, 0xd5a79147)
    ensures CubeRoot(127, 5, 0x06ca6351)
    ensures CubeRoot(131, 5, 0x14292967)
  {
  }

  lemma Cubes32()
    ensures CubeRoot(137, 5, 0x27b70a85)
    ensures CubeRoot(139, 5, 0x2e1b2138)
    ensures CubeRoot(149, 5, 0x4d2c6dfc)
    ensures CubeRoot(151, 5, 0x53380d13)
    ensures CubeRoot(157, 5, 0x650a7354)
    ensures CubeRoot(163, 5, 0x766a0abb)
    ensures CubeRoot(167, 5, 0x81c2c92e)
    ensures CubeRoot(173, 5, 0x92722c85)
  {
  }

  lemma Cubes40()
    ensures CubeRoot(179, 5, 0xa2bfe8a1)
    ensures CubeRoot(181, 5, 0xa81a664b)
    ensures CubeRoot(191, 5, 0xc24b8b70)
    ensures CubeRoot(193, 5, 0xc76c51a3)
    ensures CubeRoot(197, 5, 0xd192e819)
    ensures CubeRoot(199, 5, 0xd6990624)
    ensures CubeRoot(211, 5, 0xf40e3585)
    ensures CubeRoot(223, 6, 0x106aa070)
  {
  }

  lemma Cubes48()
    ensures CubeRoot(227, 6, 0x19a4c116)
    ensures CubeRoot(229, 6, 0x1e376c08)
    ensures CubeRoot(233, 6, 0x2748774c)
    ensures CubeRoot(239, 6, 0x34b0bcb5)
    ensures CubeRoot(241, 6, 0x391c0cb3)
    ensures CubeRoot(251, 6, 0x4ed8aa4a)
    ensures CubeRoot(257, 6, 0x5b9cca4f)
    ensures CubeRoot(263, 6, 0x682e6ff3)
  {
  }

  lemma Cubes56()
    ensures CubeRoot(269, 6, 0x748f82ee)
    ensures CubeRoot(271, 6, 0x78a5636f)
    ensures CubeRoot(277, 6, 0x84c87814)
    ensures CubeRoot(281, 6, 0x8cc70208)
    ensures CubeRoot(283, 6, 0x90befffa)
    ensures CubeRoot(293, 6, 0xa4506ceb)
    ensures CubeRoot(307, 6, 0xbef9a3f7)
    ensures CubeRoot(311, 6, 0xc67178f2)
  {
  }

  lemma Squares()
    ensures SquareRoot(2, 1, 0x6a09e667)
    ensures SquareRoot(3, 1, 0xbb67ae85)
    ensures SquareRoot(5, 2, 0x3c6ef372)
    ensures SquareRoot(7, 2, 0xa54ff53a)
    ensures SquareRoot(11, 3, 0x510e527f)
    ensures SquareRoot(13, 3, 0x9b05688c)
    ensures SquareRoot(17, 4, 0x1f83d9ab)
    ensures SquareRoot(19, 4, 0x5be0cd19)
  {
  }

  ghost predicate HasCubeRoot(p: nat, k: nat)
  {
    exists n :: CubeRoot(p, n, k)
  }

  ghost predicate HasSquareRoot(p: nat, k: nat)
  {
    exists n :: SquareRoot(p, n, k)
  }

  ghost predicate CubeRow(ps: seq<nat>, ks: seq<Word>)
  {
    |ps| == |ks| == 8 && forall j :: 0 <= j < 8 ==> HasCubeRoot(ps[j], ks[j] as nat)
  }

  lemma CubeRow0()
    ensures CubeRow(P0, K0)
  {
    hide CubeRoot;
    Cubes0();
  }

  lemma CubeRow1()
    ensures CubeRow(P1, K1)
  {
    hide CubeRoot;
    Cubes8();
  }

  lemma CubeRow2()
    ensures CubeRow(P2, K2)
  {
    hide CubeRoot;
    Cubes16();
  }

  lemma CubeRow3()
    ensures CubeRow(P3, K3)
  {
    hide CubeRoot;
    Cubes24();
  }

  lemma CubeRow4()
    ensures CubeRow(P4, K4)
  {
    hide CubeRoot;
    Cubes32();
  }

  lemma CubeRow5()
    ensures CubeRow(P5, K5)
  {
    hide CubeRoot;
    Cubes40();
  }

  lemma CubeRow6()
    ensures CubeRow(P6, K6)
  {
    hide CubeRoot;
    Cubes48();
  }

  lemma CubeRow7()
    ensures CubeRow(P7, K7)
  {
    hide CubeRoot;
    Cubes56();
  }

  lemma KRows(i: nat)
    requires i < 64
    ensures |K| == 64
    ensures K[i] == [K0, K1, K2, K3, K4, K5, K6, K7][i / 8][i % 8]
  {
    assert |K0| == |K1| == |K2| == |K3| == |K4| == |K5| == |K6| == |K7| == 8;
    Joined(K0, K1, K2, K3, K4, K5, K6, K7, i);
    hide K0, K1, K2, K3, K4, K5, K6, K7;
  }

  /** The words of the rounds are the first 32 bits behind the point of the cube roots of the first 64 primes. */
  lemma RoundConstants(i: nat)
    requires i < 64
    ensures |K| == |PRIMES| == 64 && HasCubeRoot(PRIMES[i], K[i] as nat)
  {
    hide HasCubeRoot;
    KRows(i);
    ListRows(i);
    CubeRow0(); CubeRow1(); CubeRow2(); CubeRow3(); CubeRow4(); CubeRow5(); CubeRow6(); CubeRow7();
    hide P0, P1, P2, P3, P4, P5, P6, P7, K0, K1, K2, K3, K4, K5, K6, K7, K, PRIMES;
  }

  /** The words the hash starts from are those of the square roots of the first eight. */
  lemma InitialWords(i: nat)
    requires i < 8
    ensures |IV| == 8 && |PRIMES| == 64 && HasSquareRoot(PRIMES[i], IV[i] as nat)
  {
    hide SquareRoot;
    Squares();
    ListRows(i);
  }

  /** One number of 32 bits at most is behind the point of a root. */
  lemma RootsUnique(p: nat, m: nat, j: nat, n: nat, k: nat)
    ensures CubeRoot(p, m, j) && CubeRoot(p, n, k) ==> m == n && j == k
    ensures SquareRoot(p, m, j) && SquareRoot(p, n, k) ==> m == n && j == k
  {
    hide Cube, Square;
    if m < n { Rising(m + 1, n); } else if n < m { Rising(n + 1, m); }
    var x, y := m * TWO32 + j, n * TWO32 + k;
    if x < y { Rising(x + 1, y); } else if y < x { Rising(y + 1, x); }
  }

  lemma Rising(x: nat, y: nat)
    requires x <= y
    ensures Square(x) <= Square(y) && Cube(x) <= Cube(y)
  {
    Product(x, y, x, y);
    Product(x * x, y * y, x, y);
  }

  lemma Product(a: nat, b: nat, c: nat, d: nat)
    requires a <= b && c <= d
    ensures a * c <= b * d
  {
    Distribute(a, b - a, d);
    AtLeastZero(b - a, d);
    Distribute(c, d - c, a);
    AtLeastZero(d - c, a);
    Swap(a, c);
    Swap(a, d);
  }
}
