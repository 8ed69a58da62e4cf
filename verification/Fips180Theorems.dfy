/** What the functions of FIPS 180-4 are, said apart from their formulas: bit by bit for those of section
    4.1.2, byte by byte for the words of section 3.1. */
module Fips180Theorems {
  import opened Fips180

  // ----- sections 3.1 and 4.1.2 -----

  /** Where x has a 1 the result has the bit of y, elsewhere that of z. */
  lemma ChChooses(x: Word, y: Word, z: Word)
    ensures Ch(x, y, z) & x == y & x
    ensures Ch(x, y, z) & !x == z & !x
  {
  }

  /** m has every bit that both x and y have, and lacks every bit that both lack. */
  predicate FollowsBoth(m: Word, x: Word, y: Word) {
    x & y & !m == 0 && !x & !y & m == 0
  }

  /** Every bit of the result is as in two of the three. */
  lemma MajIsMajority(x: Word, y: Word, z: Word)
    ensures FollowsBoth(Maj(x, y, z), x, y) && FollowsBoth(Maj(x, y, z), y, z) && FollowsBoth(Maj(x, y, z), z, x)
  {
    MajOfTwo(x, y, z);
    MajOfTwo(y, z, x);
    MajOfTwo(z, x, y);
    MajTurns(x, y, z);
    MajTurns(y, z, x);
    hide Maj, FollowsBoth;
  }

  lemma MajOfTwo(x: Word, y: Word, z: Word)
    ensures FollowsBoth(Maj(x, y, z), x, y)
  {
  }

  lemma MajTurns(x: Word, y: Word, z: Word)
    ensures Maj(x, y, z) == Maj(y, z, x)
  {
  }

  /** RotR is the rotation of words, by each amount that the standard uses. */
  lemma RotRRotates(x: Word)
    ensures RotR(x, 2) == x.RotateRight(2) && RotR(x, 6) == x.RotateRight(6)
    ensures RotR(x, 7) == x.RotateRight(7) && RotR(x, 11) == x.RotateRight(11)
    ensures RotR(x, 13) == x.RotateRight(13) && RotR(x, 17) == x.RotateRight(17)
    ensures RotR(x, 18) == x.RotateRight(18) && RotR(x, 19) == x.RotateRight(19)
    ensures RotR(x, 22) == x.RotateRight(22) && RotR(x, 25) == x.RotateRight(25)
  {
  }

  // The amounts by which the sigma functions rotate, and shift.

  lemma BigSigma0Rotates(x: Word)
    ensures BigSigma0(x) == Xor3(x.RotateRight(2), x.RotateRight(13), x.RotateRight(22))
  {
    RotRRotates(x);
    hide RotR, Xor3;
  }

  lemma BigSigma1Rotates(x: Word)
    ensures BigSigma1(x) == Xor3(x.RotateRight(6), x.RotateRight(11), x.RotateRight(25))
  {
    RotRRotates(x);
    hide RotR, Xor3;
  }

  lemma SmallSigma0Rotates(x: Word)
    ensures SmallSigma0(x) == Xor3(x.RotateRight(7), x.RotateRight(18), x >> 3)
  {
    RotRRotates(x);
    hide RotR, Xor3;
  }

  lemma SmallSigma1Rotates(x: Word)
    ensures SmallSigma1(x) == Xor3(x.RotateRight(17), x.RotateRight(19), x >> 10)
  {
    RotRRotates(x);
    hide RotR, Xor3;
  }

  /** The first byte of a word is its most significant one. */
  lemma WordOfIsBigEndian(b: seq<Byte>)
    requires |b| == 4
    ensures WordOf(b) >> 24 == b[0] as Word
    ensures (WordOf(b) >> 16) & 0xff == b[1] as Word
    ensures (WordOf(b) >> 8) & 0xff == b[2] as Word
    ensures WordOf(b) & 0xff == b[3] as Word
  {
  }

  /** Addition modulo 2^32 is the addition of 32-bit words. */
  lemma PlusAdds(x: Word, y: Word)
    ensures Plus(x, y) == x + y
  {
  }

  // ----- section 6.2.2, with everything written out -----

  lemma FirstScheduleWords(block: seq<Byte>, t: nat)
    requires |block| == 64 && t < 16
    ensures W(block, t) >> 24 == block[4 * t] as Word && (W(block, t) >> 16) & 0xff == block[4 * t + 1] as Word
    ensures (W(block, t) >> 8) & 0xff == block[4 * t + 2] as Word && W(block, t) & 0xff == block[4 * t + 3] as Word
  {
    WordOfIsBigEndian(block[4 * t..4 * t + 4]);
    hide WordOf;
  }

  lemma ScheduleSpelledOut(block: seq<Byte>, t: nat)
    requires |block| == 64 && 16 <= t < 64
    ensures W(block, t) == Plus(Plus(Plus(SmallSigma1(W(block, t - 2)), W(block, t - 7)),
                                     SmallSigma0(W(block, t - 15))), W(block, t - 16))
  {
    hide SmallSigma0, SmallSigma1, Plus;
  }

  lemma RoundSpelledOut(v: Hash, k: Word, w: Word)
    ensures var t1 := Plus(Plus(Plus(Plus(v.h, BigSigma1(v.e)), Ch(v.e, v.f, v.g)), k), w);
            var t2 := Plus(BigSigma0(v.a), Maj(v.a, v.b, v.c));
            var r := Round(v, k, w);
            && r.a == Plus(t1, t2) && r.b == v.a && r.c == v.b && r.d == v.c
            && r.e == Plus(v.d, t1) && r.f == v.e && r.g == v.f && r.h == v.g
  {
    hide BigSigma0, BigSigma1, Plus, Ch, Maj;
  }

  lemma Xor3Adds(x: Word, y: Word, z: Word)
    ensures Xor3(x, y, z) == x ^ y ^ z
  {
  }
}
