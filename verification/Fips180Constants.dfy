/** Where the constants of FIPS 180-4, sections 4.2.2 and 5.3.3, come from: the roots of the first primes. */
module Fips180Constants {
  import opened Fips180

  // ----- the first 64 primes -----

  predicate IsPrime(n: nat) { n >= 2 && forall d :: 2 <= d < n ==> n % d != 0 }

  /** No prime up to 17 divides n, other than n itself. */
  predicate Sieved(n: nat) {
    && n >= 2
    && (n % 2 != 0 || n == 2) && (n % 3 != 0 || n == 3) && (n % 5 != 0 || n == 5) && (n % 7 != 0 || n == 7)
    && (n % 11 != 0 || n == 11) && (n % 13 != 0 || n == 13) && (n % 17 != 0 || n == 17)
  }

  lemma DividedBy(n: nat, q: nat)
    requires q in {2, 3, 5, 7, 11, 13, 17} && n % q == 0 && n != q
    ensures !Sieved(n)
  {
  }

  lemma Times2(x: nat)
    requires x >= 2
    ensures !Sieved(2 * x)
  {
    hide Sieved;
    assert 2 * x % 2 == 0;
    DividedBy(2 * x, 2);
  }

  lemma Times3(x: nat)
    requires x >= 2
    ensures !Sieved(3 * x)
  {
    hide Sieved;
    assert 3 * x % 3 == 0;
    DividedBy(3 * x, 3);
  }

  lemma Times5(x: nat)
    requires x >= 2
    ensures !Sieved(5 * x)
  {
    hide Sieved;
    assert 5 * x % 5 == 0;
    DividedBy(5 * x, 5);
  }

  lemma Times7(x: nat)
    requires x >= 2
    ensures !Sieved(7 * x)
  {
    hide Sieved;
    assert 7 * x % 7 == 0;
    DividedBy(7 * x, 7);
  }

  lemma Times11(x: nat)
    requires x >= 2
    ensures !Sieved(11 * x)
  {
    hide Sieved;
    assert 11 * x % 11 == 0;
    DividedBy(11 * x, 11);
  }

  lemma Times13(x: nat)
    requires x >= 2
    ensures !Sieved(13 * x)
  {
    hide Sieved;
    assert 13 * x % 13 == 0;
    DividedBy(13 * x, 13);
  }

  lemma Times17(x: nat)
    requires x >= 2
    ensures !Sieved(17 * x)
  {
    hide Sieved;
    assert 17 * x % 17 == 0;
    DividedBy(17 * x, 17);
  }

  lemma Regroup(q: nat, a: nat, b: nat)
    requires a >= 1 && b >= 2
    ensures q * a * b == q * (a * b) && a * b >= 2
  {
  }

  lemma Factor(n: nat, m: nat, b: nat)
    requires n == m * b && 2 <= m < 19 && b >= 2
    ensures !Sieved(n)
  {
    hide Sieved;
    if m == 11 {
      Times11(b);
    } else if m == 13 {
      Times13(b);
    } else if m == 17 {
      Times17(b);
    } else {
      var q := if m % 2 == 0 then 2 else if m % 3 == 0 then 3 else if m % 5 == 0 then 5 else 7;
      var x := m / q * b;
      Regroup(q, m / q, b);
      match q {
        case 2 => Times2(x);
        case 3 => Times3(x);
        case 5 => Times5(x);
        case 7 => Times7(x);
      }
    }
  }

  lemma Cofactor(n: nat, d: nat) returns (e: nat)
    requires n < 361 && 2 <= d < n && n % d == 0
    ensures n == d * e && e >= 2 && (d < 19 || e < 19)
  {
    e := n / d;
    BothLarge(d, e);
  }

  lemma BothLarge(d: nat, e: nat)
    requires d >= 1
    ensures e <= 1 ==> d * e <= d
    ensures d >= 19 && e >= 19 ==> d * e >= 361
  {
  }

  lemma SievedIsPrime(n: nat)
    requires n < 361
    ensures IsPrime(n) <==> Sieved(n)
  {
    if Sieved(n) {
      forall d | 2 <= d < n ensures n % d != 0 {
        if n % d == 0 {
          var e := Cofactor(n, d);
          if d < 19 {
            Factor(n, d, e);
          } else {
            Factor(n, e, d);
          }
        }
      }
    }
  }

  /** The next prime after p is q. */
  predicate NextPrime(p: nat, q: nat) {
    p < q && IsPrime(q) && forall n :: p < n < q ==> !IsPrime(n)
  }

  predicate NoneSieved(lo: nat, hi: nat)
    decreases hi - lo
  {
    lo >= hi || (!Sieved(lo) && NoneSieved(lo + 1, hi))
  }

  lemma {:induction false} NoneSievedAt(lo: nat, hi: nat, n: nat)
    requires NoneSieved(lo, hi) && lo <= n < hi
    ensures !Sieved(n)
    decreases hi - lo
  {
    if lo < n {
      NoneSievedAt(lo + 1, hi, n);
    }
  }

  lemma SieveNext(p: nat, lo: nat, q: nat)
    requires p < lo == p + 1 <= q < 361 && Sieved(q) && NoneSieved(lo, q)
    ensures NextPrime(p, q)
  {
    hide Sieved;
    SievedIsPrime(q);
    forall n | p < n < q ensures !IsPrime(n) {
      NoneSievedAt(lo, q, n);
      SievedIsPrime(n);
    }
  }

  const PRIME_ROWS: seq<seq<nat>> := [
    [2, 3, 5, 7, 11, 13, 17, 19],
    [23, 29, 31, 37, 41, 43, 47, 53],
    [59, 61, 67, 71, 73, 79, 83, 89],
    [97, 101, 103, 107, 109, 113, 127, 131],
    [137, 139, 149, 151, 157, 163, 167, 173],
    [179, 181, 191, 193, 197, 199, 211, 223],
    [227, 229, 233, 239, 241, 251, 257, 263],
    [269, 271, 277, 281, 283, 293, 307, 311]]

  function Prime(t: nat): nat
    requires t < 64
  {
    PRIME_ROWS[t / 8][t % 8]
  }

  ghost predicate InOrder(t: nat)
    requires t < 64
  {
    NextPrime(if t == 0 then 1 else Prime(t - 1), Prime(t))
  }

  lemma Follows(t: nat, p: nat, lo: nat, q: nat)
    requires t < 64 && p == (if t == 0 then 1 else Prime(t - 1)) && q == Prime(t)
    requires p < lo == p + 1 <= q < 361 && Sieved(q) && NoneSieved(lo, q)
    ensures InOrder(t)
  {
    hide Sieved, NextPrime;
    SieveNext(p, lo, q);
  }

  lemma Primes0()
    ensures forall t :: 0 <= t < 4 ==> InOrder(t)
  {
    hide InOrder;
    Follows(0, 1, 2, 2); Follows(1, 2, 3, 3); Follows(2, 3, 4, 5); Follows(3, 5, 6, 7);
  }

  lemma Primes4()
    ensures forall t :: 4 <= t < 8 ==> InOrder(t)
  {
    hide InOrder;
    Follows(4, 7, 8, 11); Follows(5, 11, 12, 13); Follows(6, 13, 14, 17); Follows(7, 17, 18, 19);
  }

  lemma Primes8()
    ensures forall t :: 8 <= t < 12 ==> InOrder(t)
  {
    hide InOrder;
    Follows(8, 19, 20, 23); Follows(9, 23, 24, 29); Follows(10, 29, 30, 31); Follows(11, 31, 32, 37);
  }

  lemma Primes12()
    ensures forall t :: 12 <= t < 16 ==> InOrder(t)
  {
    hide InOrder;
    Follows(12, 37, 38, 41); Follows(13, 41, 42, 43); Follows(14, 43, 44, 47); Follows(15, 47, 48, 53);
  }

  lemma Primes16()
    ensures forall t :: 16 <= t < 20 ==> InOrder(t)
  {
    hide InOrder;
    Follows(16, 53, 54, 59); Follows(17, 59, 60, 61); Follows(18, 61, 62, 67); Follows(19, 67, 68, 71);
  }

  lemma Primes20()
    ensures forall t :: 20 <= t < 24 ==> InOrder(t)
  {
    hide InOrder;
    Follows(20, 71, 72, 73); Follows(21, 73, 74, 79); Follows(22, 79, 80, 83); Follows(23, 83, 84, 89);
  }

  lemma Primes24()
    ensures forall t :: 24 <= t < 28 ==> InOrder(t)
  {
    hide InOrder;
    Follows(24, 89, 90, 97); Follows(25, 97, 98, 101); Follows(26, 101, 102, 103); Follows(27, 103, 104, 107);
  }

  lemma Primes28()
    ensures forall t :: 28 <= t < 32 ==> InOrder(t)
  {
    hide InOrder;
    Follows(28, 107, 108, 109); Follows(29, 109, 110, 113); Follows(30, 113, 114, 127); Follows(31, 127, 128, 131);
  }

  lemma Primes32()
    ensures forall t :: 32 <= t < 36 ==> InOrder(t)
  {
    hide InOrder;
    Follows(32, 131, 132, 137); Follows(33, 137, 138, 139); Follows(34, 139, 140, 149); Follows(35, 149, 150, 151);
  }

  lemma Primes36()
    ensures forall t :: 36 <= t < 40 ==> InOrder(t)
  {
    hide InOrder;
    Follows(36, 151, 152, 157); Follows(37, 157, 158, 163); Follows(38, 163, 164, 167); Follows(39, 167, 168, 173);
  }

  lemma Primes40()
    ensures forall t :: 40 <= t < 44 ==> InOrder(t)
  {
    hide InOrder;
    Follows(40, 173, 174, 179); Follows(41, 179, 180, 181); Follows(42, 181, 182, 191); Follows(43, 191, 192, 193);
  }

  lemma Primes44()
    ensures forall t :: 44 <= t < 48 ==> InOrder(t)
  {
    hide InOrder;
    Follows(44, 193, 194, 197); Follows(45, 197, 198, 199); Follows(46, 199, 200, 211); Follows(47, 211, 212, 223);
  }

  lemma Primes48()
    ensures forall t :: 48 <= t < 52 ==> InOrder(t)
  {
    hide InOrder;
    Follows(48, 223, 224, 227); Follows(49, 227, 228, 229); Follows(50, 229, 230, 233); Follows(51, 233, 234, 239);
  }

  lemma Primes52()
    ensures forall t :: 52 <= t < 56 ==> InOrder(t)
  {
    hide InOrder;
    Follows(52, 239, 240, 241); Follows(53, 241, 242, 251); Follows(54, 251, 252, 257); Follows(55, 257, 258, 263);
  }

  lemma Primes56()
    ensures forall t :: 56 <= t < 60 ==> InOrder(t)
  {
    hide InOrder;
    Follows(56, 263, 264, 269); Follows(57, 269, 270, 271); Follows(58, 271, 272, 277); Follows(59, 277, 278, 281);
  }

  lemma Primes60()
    ensures forall t :: 60 <= t < 64 ==> InOrder(t)
  {
    hide InOrder;
    Follows(60, 281, 282, 283); Follows(61, 283, 284, 293); Follows(62, 293, 294, 307); Follows(63, 307, 308, 311);
  }

  /** The table has the first 64 primes, in order and without gaps. */
  lemma PrimesInOrder(t: nat)
    requires t < 64
    ensures NextPrime(if t == 0 then 1 else Prime(t - 1), Prime(t))
  {
    hide NextPrime, Prime;
    Primes0(); Primes4(); Primes8(); Primes12(); Primes16(); Primes20(); Primes24(); Primes28();
    Primes32(); Primes36(); Primes40(); Primes44(); Primes48(); Primes52(); Primes56(); Primes60();
    assert InOrder(t);
  }

  // ----- sections 4.2.2 and 5.3.3 -----

  /** k is the first 32 bits of the fraction of the cube root of p, whose whole part is c. */
  predicate CubeRootFraction(p: nat, c: nat, k: nat) {
    var r := c * 0x1_0000_0000 + k;
    k < 0x1_0000_0000 && r * r * r <= p * 0x1_0000_0000_0000_0000_0000_0000 < (r + 1) * (r + 1) * (r + 1)
  }

  /** Likewise for the square root. */
  predicate SquareRootFraction(p: nat, c: nat, k: nat) {
    var r := c * 0x1_0000_0000 + k;
    k < 0x1_0000_0000 && r * r <= p * 0x1_0000_0000_0000_0000 < (r + 1) * (r + 1)
  }

  predicate CubeRootWord(p: nat, c: nat, k: Word) { CubeRootFraction(p, c, k as nat) }

  ghost predicate FromPrime(t: nat)
    requires t < 64
  {
    exists c: nat :: CubeRootWord(Prime(t), c, K(t))
  }

  lemma CubeRoot(t: nat, c: nat, k: nat)
    requires t < 64 && CubeRootFraction(Prime(t), c, k) && K(t) as nat == k
    ensures FromPrime(t)
  {
    hide CubeRootFraction;
    assert CubeRootWord(Prime(t), c, K(t));
  }

  lemma KFrom0()
    ensures forall t :: 0 <= t < 4 ==> FromPrime(t)
  {
    hide FromPrime;
    CubeRoot(0, 1, 0x428a2f98); CubeRoot(1, 1, 0x71374491);
    CubeRoot(2, 1, 0xb5c0fbcf); CubeRoot(3, 1, 0xe9b5dba5);
  }

  lemma KFrom4()
    ensures forall t :: 4 <= t < 8 ==> FromPrime(t)
  {
    hide FromPrime;
    CubeRoot(4, 2, 0x3956c25b); CubeRoot(5, 2, 0x59f111f1);
    CubeRoot(6, 2, 0x923f82a4); CubeRoot(7, 2, 0xab1c5ed5);
  }

  lemma KFrom8()
    ensures forall t :: 8 <= t < 12 ==> FromPrime(t)
  {
    hide FromPrime;
    CubeRoot(8, 2, 0xd807aa98); CubeRoot(9, 3, 0x12835b01);
    CubeRoot(10, 3, 0x243185be); CubeRoot(11, 3, 0x550c7dc3);
  }

  lemma KFrom12()
    ensures forall t :: 12 <= t < 16 ==> FromPrime(t)
  {
    hide FromPrime;
    CubeRoot(12, 3, 0x72be5d74); CubeRoot(13, 3, 0x80deb1fe);
    CubeRoot(14, 3, 0x9bdc06a7); CubeRoot(15, 3, 0xc19bf174);
  }

  lemma KFrom16()
    ensures forall t :: 16 <= t < 20 ==> FromPrime(t)
  {
    hide FromPrime;
    CubeRoot(16, 3, 0xe49b69c1); CubeRoot(17, 3, 0xefbe4786);
    CubeRoot(18, 4, 0x0fc19dc6); CubeRoot(19, 4, 0x240ca1cc);
  }

  lemma KFrom20()
    ensures forall t :: 20 <= t < 24 ==> FromPrime(t)
  {
    hide FromPrime;
    CubeRoot(20, 4, 0x2de92c6f); CubeRoot(21, 4, 0x4a7484aa);
    CubeRoot(22, 4, 0x5cb0a9dc); CubeRoot(23, 4, 0x76f988da);
  }

  lemma KFrom24()
    ensures forall t :: 24 <= t < 28 ==> FromPrime(t)
  {
    hide FromPrime;
    CubeRoot(24, 4, 0x983e5152); CubeRoot(25, 4, 0xa831c66d);
    CubeRoot(26, 4, 0xb00327c8); CubeRoot(27, 4, 0xbf597fc7);
  }

  lemma KFrom28()
    ensures forall t :: 28 <= t < 32 ==> FromPrime(t)
  {
    hide FromPrime;
    CubeRoot(28, 4, 0xc6e00bf3); CubeRoot(29, 4, 0xd5a79147);
    CubeRoot(30, 5, 0x06ca6351); CubeRoot(31, 5, 0x14292967);
  }

  lemma KFrom32()
    ensures forall t :: 32 <= t < 36 ==> FromPrime(t)
  {
    hide FromPrime;
    CubeRoot(32, 5, 0x27b70a85); CubeRoot(33, 5, 0x2e1b2138);
    CubeRoot(34, 5, 0x4d2c6dfc); CubeRoot(35, 5, 0x53380d13);
  }

  lemma KFrom36()
    ensures forall t :: 36 <= t < 40 ==> FromPrime(t)
  {
    hide FromPrime;
    CubeRoot(36, 5, 0x650a7354); CubeRoot(37, 5, 0x766a0abb);
    CubeRoot(38, 5, 0x81c2c92e); CubeRoot(39, 5, 0x92722c85);
  }

  lemma KFrom40()
    ensures forall t :: 40 <= t < 44 ==> FromPrime(t)
  {
    hide FromPrime;
    CubeRoot(40, 5, 0xa2bfe8a1); CubeRoot(41, 5, 0xa81a664b);
    CubeRoot(42, 5, 0xc24b8b70); CubeRoot(43, 5, 0xc76c51a3);
  }

  lemma KFrom44()
    ensures forall t :: 44 <= t < 48 ==> FromPrime(t)
  {
    hide FromPrime;
    CubeRoot(44, 5, 0xd192e819); CubeRoot(45, 5, 0xd6990624);
    CubeRoot(46, 5, 0xf40e3585); CubeRoot(47, 6, 0x106aa070);
  }

  lemma KFrom48()
    ensures forall t :: 48 <= t < 52 ==> FromPrime(t)
  {
    hide FromPrime;
    CubeRoot(48, 6, 0x19a4c116); CubeRoot(49, 6, 0x1e376c08);
    CubeRoot(50, 6, 0x2748774c); CubeRoot(51, 6, 0x34b0bcb5);
  }

  lemma KFrom52()
    ensures forall t :: 52 <= t < 56 ==> FromPrime(t)
  {
    hide FromPrime;
    CubeRoot(52, 6, 0x391c0cb3); CubeRoot(53, 6, 0x4ed8aa4a);
    CubeRoot(54, 6, 0x5b9cca4f); CubeRoot(55, 6, 0x682e6ff3);
  }

  lemma KFrom56()
    ensures forall t :: 56 <= t < 60 ==> FromPrime(t)
  {
    hide FromPrime;
    CubeRoot(56, 6, 0x748f82ee); CubeRoot(57, 6, 0x78a5636f);
    CubeRoot(58, 6, 0x84c87814); CubeRoot(59, 6, 0x8cc70208);
  }

  lemma KFrom60()
    ensures forall t :: 60 <= t < 64 ==> FromPrime(t)
  {
    hide FromPrime;
    CubeRoot(60, 6, 0x90befffa); CubeRoot(61, 6, 0xa4506ceb);
    CubeRoot(62, 6, 0xbef9a3f7); CubeRoot(63, 6, 0xc67178f2);
  }

  /** Each constant is the first 32 bits of the fraction of the cube root of its prime. */
  lemma KIsFromPrimes(t: nat)
    requires t < 64
    ensures exists c: nat :: CubeRootWord(Prime(t), c, K(t))
  {
    hide CubeRootWord, K, Prime;
    KFrom0(); KFrom4(); KFrom8(); KFrom12(); KFrom16(); KFrom20(); KFrom24(); KFrom28();
    KFrom32(); KFrom36(); KFrom40(); KFrom44(); KFrom48(); KFrom52(); KFrom56(); KFrom60();
    assert FromPrime(t);
  }

  /** Each word of the initial hash value is the first 32 bits of the fraction of the square root of one
      of the first eight primes. */
  lemma H0IsFromPrimes()
    ensures SquareRootFraction(Prime(0), 1, H0().a as nat)
    ensures SquareRootFraction(Prime(1), 1, H0().b as nat)
    ensures SquareRootFraction(Prime(2), 2, H0().c as nat)
    ensures SquareRootFraction(Prime(3), 2, H0().d as nat)
    ensures SquareRootFraction(Prime(4), 3, H0().e as nat)
    ensures SquareRootFraction(Prime(5), 3, H0().f as nat)
    ensures SquareRootFraction(Prime(6), 4, H0().g as nat)
    ensures SquareRootFraction(Prime(7), 4, H0().h as nat)
  {
    assert H0().a as nat == 0x6a09e667;
    assert H0().b as nat == 0xbb67ae85;
    assert H0().c as nat == 0x3c6ef372;
    assert H0().d as nat == 0xa54ff53a;
    assert H0().e as nat == 0x510e527f;
    assert H0().f as nat == 0x9b05688c;
    assert H0().g as nat == 0x1f83d9ab;
    assert H0().h as nat == 0x5be0cd19;
  }
}
