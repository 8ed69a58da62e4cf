/** The SHA-256 function of FIPS 180-4, written as a one-shot recursive reference:
    functions (4.1.2), constants (4.2.2), padding (5.1.1), parsing (5.2.1), initial
    hash value (5.3.3) and computation (6.2.2).  Nothing here knows about buffers,
    chunks or in-place updates. */
module Fips180 {
  type Byte = bv8
  type Word = bv32

  /** Eight words: a hash value H(i), or the working variables a..h. */
  datatype Hash = Hash(a: Word, b: Word, c: Word, d: Word, e: Word, f: Word, g: Word, h: Word)

  // ----- section 4.1.2: functions -----

  function RotR(x: Word, n: nat): Word
    requires 0 < n < 32
  {
    (x >> n) | (x << (32 - n))
  }

  function Ch(x: Word, y: Word, z: Word): Word { (x & y) ^ (!x & z) }

  function Maj(x: Word, y: Word, z: Word): Word { (x & y) ^ (x & z) ^ (y & z) }

  /** The sum of three words, bit by bit modulo 2. */
  function Xor3(x: Word, y: Word, z: Word): Word { x ^ y ^ z }

  function BigSigma0(x: Word): Word { Xor3(RotR(x, 2), RotR(x, 13), RotR(x, 22)) }

  function BigSigma1(x: Word): Word { Xor3(RotR(x, 6), RotR(x, 11), RotR(x, 25)) }

  function SmallSigma0(x: Word): Word { Xor3(RotR(x, 7), RotR(x, 18), x >> 3) }

  function SmallSigma1(x: Word): Word { Xor3(RotR(x, 17), RotR(x, 19), x >> 10) }

  /** Addition modulo 2^32 (section 3.2). */
  function Plus(x: Word, y: Word): Word { x + y }

  // ----- section 4.2.2: constants; section 5.3.3: initial hash value -----

  const K_ROWS: seq<seq<Word>> := [
    [0x428a2f98, 0x71374491, 0xb5c0fbcf, 0xe9b5dba5, 0x3956c25b, 0x59f111f1, 0x923f82a4, 0xab1c5ed5],
    [0xd807aa98, 0x12835b01, 0x243185be, 0x550c7dc3, 0x72be5d74, 0x80deb1fe, 0x9bdc06a7, 0xc19bf174],
    [0xe49b69c1, 0xefbe4786, 0x0fc19dc6, 0x240ca1cc, 0x2de92c6f, 0x4a7484aa, 0x5cb0a9dc, 0x76f988da],
    [0x983e5152, 0xa831c66d, 0xb00327c8, 0xbf597fc7, 0xc6e00bf3, 0xd5a79147, 0x06ca6351, 0x14292967],
    [0x27b70a85, 0x2e1b2138, 0x4d2c6dfc, 0x53380d13, 0x650a7354, 0x766a0abb, 0x81c2c92e, 0x92722c85],
    [0xa2bfe8a1, 0xa81a664b, 0xc24b8b70, 0xc76c51a3, 0xd192e819, 0xd6990624, 0xf40e3585, 0x106aa070],
    [0x19a4c116, 0x1e376c08, 0x2748774c, 0x34b0bcb5, 0x391c0cb3, 0x4ed8aa4a, 0x5b9cca4f, 0x682e6ff3],
    [0x748f82ee, 0x78a5636f, 0x84c87814, 0x8cc70208, 0x90befffa, 0xa4506ceb, 0xbef9a3f7, 0xc67178f2]]

  function KRow(r: nat): (row: seq<Word>)
    requires r < 8
    ensures |row| == 8
  {
    K_ROWS[r]
  }

  function K(t: nat): Word
    requires t < 64
  {
    KRow(t / 8)[t % 8]
  }

  function H0(): Hash {
    Hash(0x6a09e667, 0xbb67ae85, 0x3c6ef372, 0xa54ff53a,
         0x510e527f, 0x9b05688c, 0x1f83d9ab, 0x5be0cd19)
  }

  // ----- section 3.1: words as big-endian bytes -----

  function WordOf(b: seq<Byte>): Word
    requires |b| == 4
  {
    ((b[0] as Word) << 24) | ((b[1] as Word) << 16) | ((b[2] as Word) << 8) | (b[3] as Word)
  }

  function BytesOf(x: Word): (b: seq<Byte>)
    ensures |b| == 4
    ensures WordOf(b) == x
  {
    [(x >> 24) as Byte, ((x >> 16) & 0xff) as Byte, ((x >> 8) & 0xff) as Byte, (x & 0xff) as Byte]
  }

  function ToWord(n: nat): Word
    requires n < 0x1_0000_0000
  {
    n as Word
  }

  lemma ToWordIsZeroIff(n: nat)
    requires n < 0x1_0000_0000
    ensures ToWord(n) == 0 <==> n == 0
  {
    if ToWord(n) == 0 {
      assert (n as Word) as nat == n;
    }
  }

  function Zeros(n: nat): (z: seq<Byte>)
    ensures |z| == n && forall i :: 0 <= i < n ==> z[i] == 0
  {
    seq(n, i => 0)
  }

  // ----- section 5.1.1: padding -----

  predicate LeavesLengthField(l: nat, k: nat) { (l + 1 + k) % 512 == 448 }

  /** The number k of zero bits after the "1" bit of an l-bit message.
      It is the smallest non-negative solution of l + 1 + k = 448 mod 512. */
  function ZeroBits(l: nat): (k: nat)
    ensures LeavesLengthField(l, k)
    ensures forall j: nat :: j < k ==> !LeavesLengthField(l, j)
  {
    (447 - l) % 512
  }

  /** For a message of n whole bytes the zero bits end on a byte boundary, and the length field
      ends on a block boundary. */
  lemma ZeroBytesFillTheBlock(n: nat)
    ensures ZeroBits(8 * n) >= 7
    ensures (n + 1 + (ZeroBits(8 * n) - 7) / 8 + 8) % 64 == 0
    ensures (ZeroBits(8 * n) - 7) / 8 == (55 - n) % 64
  {
    var q := (55 - n) / 64;
    var r := (55 - n) % 64;
    Remainder512(447 - 8 * n, q, 8 * r + 7);
    assert ZeroBits(8 * n) == 8 * r + 7;
    Multiple64(n + 1 + r + 8, 1 - q);
  }

  lemma Remainder512(x: int, q: int, r: nat)
    requires x == 512 * q + r && r < 512
    ensures x % 512 == r
  {
  }

  lemma Multiple64(x: int, q: int)
    requires x == 64 * q
    ensures x % 64 == 0
  {
  }

  /** An l-bit length, below 2^64, as a 64-bit block. */
  function LengthField(l: nat): (b: seq<Byte>)
    requires l < 0x1_0000_0000_0000_0000
    ensures |b| == 8
  {
    BytesOf(ToWord(l / 0x1_0000_0000)) + BytesOf(ToWord(l % 0x1_0000_0000))
  }

  /** FIPS 180-4 defines SHA-256 for messages of fewer than 2^64 bits. */
  predicate Hashable(m: seq<Byte>) { 8 * |m| < 0x1_0000_0000_0000_0000 }

  /** The padded message.  The "1" bit and the first seven zero bits make the byte 0x80. */
  function Padded(m: seq<Byte>): (p: seq<Byte>)
    requires Hashable(m)
    ensures |p| % 64 == 0
  {
    ZeroBytesFillTheBlock(|m|);
    m + [0x80] + Zeros((ZeroBits(8 * |m|) - 7) / 8) + LengthField(8 * |m|)
  }

  // ----- section 5.2.1 and 6.2.2: parsing and hash computation -----

  /** A schedule word from the words 2, 7, 15 and 16 places before it. */
  function Expand(w2: Word, w7: Word, w15: Word, w16: Word): Word {
    Plus(Plus(Plus(SmallSigma1(w2), w7), SmallSigma0(w15)), w16)
  }

  /** The message schedule W of one 64-byte block. */
  function W(block: seq<Byte>, t: nat): Word
    requires |block| == 64 && t < 64
  {
    if t < 16 then WordOf(block[4 * t..4 * t + 4])
    else Expand(W(block, t - 2), W(block, t - 7), W(block, t - 15), W(block, t - 16))
  }

  function T1(e: Word, f: Word, g: Word, h: Word, k: Word, w: Word): Word {
    Plus(Plus(Plus(Plus(h, BigSigma1(e)), Ch(e, f, g)), k), w)
  }

  function T2(a: Word, b: Word, c: Word): Word { Plus(BigSigma0(a), Maj(a, b, c)) }

  /** One pass of step 3 of section 6.2.2. */
  function Round(v: Hash, k: Word, w: Word): Hash {
    var t1 := T1(v.e, v.f, v.g, v.h, k, w);
    var t2 := T2(v.a, v.b, v.c);
    Hash(Plus(t1, t2), v.a, v.b, v.c, Plus(v.d, t1), v.e, v.f, v.g)
  }

  function Rounds(v: Hash, block: seq<Byte>, n: nat): Hash
    requires |block| == 64 && n <= 64
  {
    if n == 0 then v else Round(Rounds(v, block, n - 1), K(n - 1), W(block, n - 1))
  }

  function Compress(v: Hash, block: seq<Byte>): Hash
    requires |block| == 64
  {
    var r := Rounds(v, block, 64);
    Hash(Plus(v.a, r.a), Plus(v.b, r.b), Plus(v.c, r.c), Plus(v.d, r.d),
         Plus(v.e, r.e), Plus(v.f, r.f), Plus(v.g, r.g), Plus(v.h, r.h))
  }

  /** H(n): the hash value after the first n 64-byte blocks of p, starting from v. */
  function HashValue(v: Hash, p: seq<Byte>, n: nat): Hash
    requires 64 * n <= |p|
  {
    if n == 0 then v else Compress(HashValue(v, p, n - 1), p[64 * (n - 1)..64 * n])
  }

  function DigestBytes(v: Hash): (d: seq<Byte>)
    ensures |d| == 32
  {
    BytesOf(v.a) + BytesOf(v.b) + BytesOf(v.c) + BytesOf(v.d)
    + BytesOf(v.e) + BytesOf(v.f) + BytesOf(v.g) + BytesOf(v.h)
  }

  function Digest(m: seq<Byte>): seq<Byte>
    requires Hashable(m)
  {
    var p := Padded(m);
    DigestBytes(HashValue(H0(), p, |p| / 64))
  }

  // ----- how the fold over blocks composes -----

  /** Hashing i blocks of a message whose first j blocks are a. */
  lemma {:induction false} HashValueAppend(v: Hash, a: seq<Byte>, j: nat, b: seq<Byte>, i: nat)
    requires |a| == 64 * j && 64 * i <= |b|
    ensures HashValue(v, a + b, j + i) == HashValue(HashValue(v, a, j), b, i)
  {
    hide Compress;
    if i == 0 {
      HashValuePrefix(v, a, b, j);
    } else {
      HashValueAppend(v, a, j, b, i - 1);
      assert (a + b)[64 * (j + i - 1)..64 * (j + i)] == b[64 * (i - 1)..64 * i];
    }
  }

  /** H(n) depends on the first n blocks only. */
  lemma {:induction false} HashValuePrefix(v: Hash, a: seq<Byte>, b: seq<Byte>, n: nat)
    requires 64 * n <= |a|
    ensures HashValue(v, a + b, n) == HashValue(v, a, n)
  {
    hide Compress;
    if n > 0 {
      HashValuePrefix(v, a, b, n - 1);
      assert (a + b)[64 * (n - 1)..64 * n] == a[64 * (n - 1)..64 * n];
    }
  }
}
