/** What the streaming hasher computes, compared with FIPS 180-4 on whole messages. */
module Sha256Correctness {
  import opened Fips180
  import opened Sha256

  /** From this length in bytes on, the length in bits no longer fits the hasher's 32-bit field. */
  const LENGTH_LIMIT: nat := 0x2000_0000

  /** Everything the hasher compresses for a message: its whole blocks, then the final blocks. */
  function HashedStream(m: seq<Byte>): seq<Byte> {
    m[..64 * (|m| / 64)] + FinalBlocks(Absorb(Initial(), m))
  }

  lemma AbsorbFromStart(m: seq<Byte>)
    ensures var n := |m| / 64;
            Absorb(Initial(), m) == State(HashValue(H0(), m, n), m[64 * n..], 64 * n % 0x1_0000_0000)
  {
    hide HashValue, H0, Absorb;
    var s, n := Initial(), |m| / 64;
    assert s.buffered + m == m;
    AbsorbIs(s, m);
  }

  /** The result of init; update; final is one fold of the compression function over that stream. */
  lemma FinishHashesStream(m: seq<Byte>)
    ensures |HashedStream(m)| % 64 == 0
    ensures Finish(Absorb(Initial(), m)) == HashValue(H0(), HashedStream(m), |HashedStream(m)| / 64)
  {
    hide Compress, HashValue, FinalBlocks, Absorb;
    AbsorbFromStart(m);
    var n := |m| / 64;
    var s := Absorb(Initial(), m);
    assert m == m[..64 * n] + m[64 * n..];
    HashValuePrefix(H0(), m[..64 * n], m[64 * n..], n);
    HashValueAppend(H0(), m[..64 * n], n, FinalBlocks(s), FinalBlockCount(|s.buffered|));
  }

  /** The stream spelled out: the message, 0x80, the zeros that fill the last block, and the length. */
  lemma StreamShape(m: seq<Byte>)
    ensures HashedStream(m) == m + [0x80] + Zeros((55 - |m|) % 64 + 4) + BytesOf(BitLength(|m|))
  {
    hide BytesOf, Absorb, BitLength, HashValue, Zeros;
    AbsorbFromStart(m);
    var n, k := |m| / 64, |m| % 64;
    var done, left := m[..64 * n], m[64 * n..];
    LengthWraps(64 * n, k);
    ZerosInLastBlock(n, k);
    var z := Zeros((55 - |m|) % 64 + 4);
    assert HashedStream(m) == done + (left + [0x80] + z + BytesOf(BitLength(|m|)));
    assert m == done + left;
  }

  lemma ZerosInLastBlock(n: nat, k: nat)
    requires k < 64
    ensures 64 * FinalBlockCount(k) - k - 5 == (55 - (64 * n + k)) % 64 + 4
  {
    assert (55 - (64 * n + k)) % 64 == (55 - k) % 64;
  }

  /** Counting the hashed bytes modulo 2^32 loses nothing: the shift by three drops the same bits. */
  lemma LengthWraps(hashed: nat, buffered: nat)
    ensures BitLength(hashed % 0x1_0000_0000 + buffered) == BitLength(hashed + buffered)
  {
    hide ToWord;
    var q := hashed / 0x1_0000_0000;
    var r := hashed % 0x1_0000_0000;
    assert (r + buffered) * 8 == (hashed + buffered) * 8 - (8 * q) * 0x1_0000_0000;
  }

  /** The hasher pads as FIPS 180-4 does exactly when the message is shorter than 2^29 bytes. */
  lemma PaddingIsStandardIff(m: seq<Byte>)
    requires Hashable(m)
    ensures HashedStream(m) == Padded(m) <==> |m| < LENGTH_LIMIT
  {
    hide BytesOf, HashedStream, ToWord, ZeroBits;
    StreamShape(m);
    ZeroBytesFillTheBlock(|m|);
    var z := (55 - |m|) % 64;
    var high, low := BytesOf(ToWord(8 * |m| / 0x1_0000_0000)), BytesOf(BitLength(|m|));
    assert Zeros(z + 4) == Zeros(z) + Zeros(4);
    var head := m + [0x80] + Zeros(z);
    assert HashedStream(m) == head + (Zeros(4) + low);
    assert Padded(m) == head + (high + low);
    HighWordVanishes(8 * |m|);
    if high != Zeros(4) {
      var i :| 0 <= i < 4 && high[i] != Zeros(4)[i];
      assert HashedStream(m)[|head| + i] == Zeros(4)[i];
      assert Padded(m)[|head| + i] == high[i];
    }
  }

  lemma HighWordVanishes(bits: nat)
    requires bits < 0x1_0000_0000_0000_0000
    ensures BytesOf(ToWord(bits / 0x1_0000_0000)) == Zeros(4) <==> bits < 0x1_0000_0000
  {
    hide ToWord;
    var x := bits / 0x1_0000_0000;
    ToWordIsZeroIff(x);
    BytesOfZero(ToWord(x));
  }

  lemma BytesOfZero(w: Word)
    ensures BytesOf(w) == Zeros(4) <==> w == 0
  {
    assert WordOf(Zeros(4)) == 0;
    assert BytesOf(0) == Zeros(4);
  }

  /** For every list of chunks totalling less than 2^29 bytes, init; update*; final is SHA-256. */
  lemma StreamingIsSha256(chunks: seq<seq<Byte>>)
    requires |Flatten(chunks)| < LENGTH_LIMIT
    ensures DigestBytes(Finish(AbsorbAll(Initial(), chunks))) == Digest(Flatten(chunks))
  {
    hide Compress, HashValue, HashedStream, DigestBytes, Padded, Absorb;
    var m := Flatten(chunks);
    ChunkingIrrelevant(Initial(), chunks);
    FinishHashesStream(m);
    PaddingIsStandardIff(m);
  }

  // ----- the padding is minimal and loses nothing -----

  /** The stream is the shortest whole number of blocks with room for 0x80 and eight length bytes. */
  lemma StreamIsShortest(m: seq<Byte>, blocks: nat)
    ensures |HashedStream(m)| >= |m| + 9
    ensures 64 * blocks >= |m| + 9 ==> 64 * blocks >= |HashedStream(m)|
  {
    hide HashedStream, BytesOf, BitLength;
    StreamShape(m);
  }

  /** The end of the message inside a padded stream: the last 0x80 before the length field. */
  function MessageEnd(p: seq<Byte>, i: nat): nat
    requires i <= |p|
    ensures MessageEnd(p, i) <= i
  {
    if i == 0 then 0
    else if p[i - 1] != 0 then i - 1
    else MessageEnd(p, i - 1)
  }

  function Unpad(p: seq<Byte>): seq<Byte>
    requires |p| >= 4
  {
    p[..MessageEnd(p, |p| - 4)]
  }

  lemma {:induction false} MessageEndSkipsZeros(p: seq<Byte>, end: nat, i: nat)
    requires end < i <= |p| && p[end] == 0x80
    requires forall j :: end < j < i ==> p[j] == 0
    ensures MessageEnd(p, i) == end
  {
    if i > end + 1 {
      MessageEndSkipsZeros(p, end, i - 1);
    }
  }

  /** Every message, of any length, can be read back from the stream that is hashed. */
  lemma UnpadHashedStream(m: seq<Byte>)
    ensures Unpad(HashedStream(m)) == m
  {
    hide BytesOf, HashedStream, BitLength;
    StreamShape(m);
    MessageEndSkipsZeros(HashedStream(m), |m|, |HashedStream(m)| - 4);
  }

  lemma HashedStreamInjective(m: seq<Byte>, n: seq<Byte>)
    ensures HashedStream(m) == HashedStream(n) ==> m == n
  {
    hide HashedStream;
    StreamShape(m);
    StreamShape(n);
    UnpadHashedStream(m);
    UnpadHashedStream(n);
  }

  // ----- Utils::sha256 -----

  const DIGITS: string := "0123456789abcdef"

  function HexByte(b: Byte): string {
    [DIGITS[(b >> 4) as nat], DIGITS[(b & 0xf) as nat]]
  }

  function Hex(d: seq<Byte>): string {
    if d == [] then "" else Hex(d[..|d| - 1]) + HexByte(d[|d| - 1])
  }

  /** The hexadecimal digest of a whole input. */
  method Sha256Hex(input: seq<Byte>) returns (r: string)
    requires |input| < INT_RANGE + 128
    ensures |r| == 64
    ensures r == Hex(DigestBytes(HashValue(H0(), HashedStream(input), |HashedStream(input)| / 64)))
    ensures |input| < LENGTH_LIMIT ==> r == Hex(Digest(input))
  {
    hide HashValue, HashedStream, DigestBytes, Padded, Absorb, Finish;
    var ctx := new Hasher();
    ctx.Update(input);
    var digest := ctx.Final();
    FinishHashesStream(input);
    if |input| < LENGTH_LIMIT {
      PaddingIsStandardIff(input);
    }
    r := "";
    for i := 0 to 32
      invariant r == Hex(digest[..i]) && |r| == 2 * i
    {
      assert digest[..i + 1][..i] == digest[..i];
      r := r + HexByte(digest[i]);
    }
    assert digest[..32] == digest;
  }

  function NibbleOf(c: char): Byte {
    if '0' <= c <= '9' then (c as int - '0' as int) as Byte
    else if 'a' <= c <= 'f' then (c as int - 'a' as int + 10) as Byte
    else 0
  }

  function Unhex(s: string): seq<Byte> {
    if |s| < 2 then [] else Unhex(s[..|s| - 2]) + [(NibbleOf(s[|s| - 2]) << 4) | NibbleOf(s[|s| - 1])]
  }

  /** The hexadecimal form determines the digest. */
  lemma {:induction false} UnhexHex(d: seq<Byte>)
    ensures Unhex(Hex(d)) == d
  {
    if d != [] {
      var b := d[|d| - 1];
      UnhexHex(d[..|d| - 1]);
      assert Hex(d)[..|Hex(d)| - 2] == Hex(d[..|d| - 1]);
      NibblesRebuild(b);
    }
  }

  lemma NibblesRebuild(b: Byte)
    ensures var s := HexByte(b); (NibbleOf(s[0]) << 4) | NibbleOf(s[1]) == b
  {
    NibbleOfDigit(b >> 4);
    NibbleOfDigit(b & 0xf);
  }

  lemma NibbleOfDigit(x: Byte)
    requires x < 16
    ensures NibbleOf(DIGITS[x as nat]) == x
  {
    assert x == 0 || x == 1 || x == 2 || x == 3 || x == 4 || x == 5 || x == 6 || x == 7
        || x == 8 || x == 9 || x == 10 || x == 11 || x == 12 || x == 13 || x == 14 || x == 15;
  }
}
