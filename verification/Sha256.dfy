/** The streaming hasher of utils/sl_sha256.cpp: a 128-byte buffer, eight 32-bit registers and two
    32-bit counters, all updated in place.  Each method is tied to a function on the abstract state
    `State`; the lemmas at the end tie those functions to the reference `Fips180.Digest`. */
module Sha256 {
  import opened Fips180

  const INT_RANGE: nat := 0x8000_0000

  /** What the fields of a hasher mean between calls. */
  datatype State = State(hash: Hash, buffered: seq<Byte>, total: nat)

  function Initial(): State { State(H0(), [], 0) }

  /** Feeding a message: hash every whole block of buffered + message, keep the rest. */
  function Absorb(s: State, message: seq<Byte>): (r: State)
    ensures |r.buffered| < 64
  {
    var all := s.buffered + message;
    var n := |all| / 64;
    State(HashValue(s.hash, all, n), all[64 * n..], (s.total + 64 * n) % 0x1_0000_0000)
  }

  function AbsorbAll(s: State, chunks: seq<seq<Byte>>): (r: State)
    requires |s.buffered| < 64
    ensures |r.buffered| < 64
    decreases |chunks|
  {
    if chunks == [] then s else AbsorbAll(Absorb(s, chunks[0]), chunks[1..])
  }

  /** The number of blocks `final` hashes when len bytes are buffered. */
  function FinalBlockCount(len: nat): nat { if 55 < len then 2 else 1 }

  /** The last blocks: buffered bytes, 0x80, zeros and the 32-bit length in bits of everything fed. */
  function FinalBlocks(s: State): (p: seq<Byte>)
    requires |s.buffered| < 64
    ensures |p| == 64 * FinalBlockCount(|s.buffered|)
  {
    var n := |s.buffered|;
    s.buffered + [0x80] + Zeros(64 * FinalBlockCount(n) - n - 5)
    + BytesOf(BitLength(s.total + n))
  }

  /** A length in bytes as the code keeps it in bits: an unsigned shift by three in 32 bits. */
  function BitLength(n: nat): Word { ToWord(n * 8 % 0x1_0000_0000) }

  function Finish(s: State): Hash
    requires |s.buffered| < 64
  {
    HashValue(s.hash, FinalBlocks(s), FinalBlockCount(|s.buffered|))
  }

  function HashOf(s: seq<Word>): Hash
    requires |s| == 8
  {
    Hash(s[0], s[1], s[2], s[3], s[4], s[5], s[6], s[7])
  }

  // ----- the hasher's own macros and table -----

  function Rotr(x: Word, n: nat): Word
    requires 0 < n < 32
  {
    (x >> n) | (x << (32 - n))
  }

  function Choose(x: Word, y: Word, z: Word): Word { (x & y) ^ (!x & z) }

  function Majority(x: Word, y: Word, z: Word): Word { (x & y) ^ (x & z) ^ (y & z) }

  function F1(x: Word): Word { Rotr(x, 2) ^ Rotr(x, 13) ^ Rotr(x, 22) }

  function F2(x: Word): Word { Rotr(x, 6) ^ Rotr(x, 11) ^ Rotr(x, 25) }

  function F3(x: Word): Word { Rotr(x, 7) ^ Rotr(x, 18) ^ (x >> 3) }

  function F4(x: Word): Word { Rotr(x, 17) ^ Rotr(x, 19) ^ (x >> 10) }

  const SHA256_K: seq<seq<Word>> := [
    [0x428a2f98, 0x71374491, 0xb5c0fbcf, 0xe9b5dba5],
    [0x3956c25b, 0x59f111f1, 0x923f82a4, 0xab1c5ed5],
    [0xd807aa98, 0x12835b01, 0x243185be, 0x550c7dc3],
    [0x72be5d74, 0x80deb1fe, 0x9bdc06a7, 0xc19bf174],
    [0xe49b69c1, 0xefbe4786, 0x0fc19dc6, 0x240ca1cc],
    [0x2de92c6f, 0x4a7484aa, 0x5cb0a9dc, 0x76f988da],
    [0x983e5152, 0xa831c66d, 0xb00327c8, 0xbf597fc7],
    [0xc6e00bf3, 0xd5a79147, 0x06ca6351, 0x14292967],
    [0x27b70a85, 0x2e1b2138, 0x4d2c6dfc, 0x53380d13],
    [0x650a7354, 0x766a0abb, 0x81c2c92e, 0x92722c85],
    [0xa2bfe8a1, 0xa81a664b, 0xc24b8b70, 0xc76c51a3],
    [0xd192e819, 0xd6990624, 0xf40e3585, 0x106aa070],
    [0x19a4c116, 0x1e376c08, 0x2748774c, 0x34b0bcb5],
    [0x391c0cb3, 0x4ed8aa4a, 0x5b9cca4f, 0x682e6ff3],
    [0x748f82ee, 0x78a5636f, 0x84c87814, 0x8cc70208],
    [0x90befffa, 0xa4506ceb, 0xbef9a3f7, 0xc67178f2]]

  function TableRow(r: nat): (row: seq<Word>)
    requires r < 16
    ensures |row| == 4
  {
    SHA256_K[r]
  }

  function TableAt(j: nat): Word
    requires j < 64
  {
    TableRow(j / 4)[j % 4]
  }

  /** Four bytes of a message as a word, last byte first. */
  function Pack32(message: seq<Byte>, at: nat): Word
    requires at + 4 <= |message|
  {
    (message[at + 3] as Word) | ((message[at + 2] as Word) << 8) | ((message[at + 1] as Word) << 16)
    | ((message[at] as Word) << 24)
  }

  function LowByte(x: Word): Byte { (x & 0xff) as Byte }

  // They are those of the standard.

  lemma ChooseIsCh(x: Word, y: Word, z: Word)
    ensures Choose(x, y, z) == Ch(x, y, z)
  {
  }

  lemma MajorityIsMaj(x: Word, y: Word, z: Word)
    ensures Majority(x, y, z) == Maj(x, y, z)
  {
  }

  lemma F1IsBigSigma0(x: Word)
    ensures F1(x) == BigSigma0(x)
  {
  }

  lemma F2IsBigSigma1(x: Word)
    ensures F2(x) == BigSigma1(x)
  {
  }

  lemma F3IsSmallSigma0(x: Word)
    ensures F3(x) == SmallSigma0(x)
  {
  }

  lemma F4IsSmallSigma1(x: Word)
    ensures F4(x) == SmallSigma1(x)
  {
  }

  lemma Pack32IsWordOf(message: seq<Byte>, at: nat)
    requires at + 4 <= |message|
    ensures Pack32(message, at) == WordOf(message[at..at + 4])
  {
  }

  lemma LowBytesAreBytesOf(x: Word)
    ensures [LowByte(x >> 24), LowByte(x >> 16), LowByte(x >> 8), LowByte(x)] == BytesOf(x)
  {
  }

  lemma TableRowsAreStandard()
    ensures forall r :: 0 <= r < 8 ==> TableRow(2 * r) + TableRow(2 * r + 1) == KRow(r)
  {
    assert TableRow(0) + TableRow(1) == KRow(0) && TableRow(2) + TableRow(3) == KRow(1);
    assert TableRow(4) + TableRow(5) == KRow(2) && TableRow(6) + TableRow(7) == KRow(3);
    assert TableRow(8) + TableRow(9) == KRow(4) && TableRow(10) + TableRow(11) == KRow(5);
    assert TableRow(12) + TableRow(13) == KRow(6) && TableRow(14) + TableRow(15) == KRow(7);
  }

  lemma TableIsStandard(j: nat)
    requires j < 64
    ensures TableAt(j) == K(j)
  {
    hide TableRow, KRow;
    TableRowsAreStandard();
    var r := j / 8;
    assert (TableRow(2 * r) + TableRow(2 * r + 1))[j % 8] == KRow(r)[j % 8];
    if j % 8 < 4 {
      assert j / 4 == 2 * r && j % 4 == j % 8;
    } else {
      assert j / 4 == 2 * r + 1 && j % 4 == j % 8 - 4;
    }
  }

  lemma Temp1IsStandard(e: Word, f: Word, g: Word, h: Word, k: Word, w: Word)
    ensures Plus(Plus(Plus(Plus(h, F2(e)), Choose(e, f, g)), k), w) == T1(e, f, g, h, k, w)
  {
    hide F2, Choose, BigSigma1, Ch, Plus;
    F2IsBigSigma1(e);
    ChooseIsCh(e, f, g);
  }

  lemma Temp2IsStandard(a: Word, b: Word, c: Word)
    ensures Plus(F1(a), Majority(a, b, c)) == T2(a, b, c)
  {
    hide F1, Majority, BigSigma0, Maj, Plus;
    F1IsBigSigma0(a);
    MajorityIsMaj(a, b, c);
  }

  lemma ScheduleWordIsStandard(w2: Word, w7: Word, w15: Word, w16: Word)
    ensures Plus(Plus(Plus(F4(w2), w7), F3(w15)), w16) == Expand(w2, w7, w15, w16)
  {
    hide F3, F4, SmallSigma0, SmallSigma1, Plus;
    F4IsSmallSigma1(w2);
    F3IsSmallSigma0(w15);
  }

  function WordsBytes(words: seq<Word>): (b: seq<Byte>)
    ensures |b| == 4 * |words|
  {
    if words == [] then [] else WordsBytes(words[..|words| - 1]) + BytesOf(words[|words| - 1])
  }

  lemma {:induction false} WordsBytesOfEight(words: seq<Word>)
    requires |words| == 8
    ensures WordsBytes(words) == DigestBytes(HashOf(words))
  {
    hide BytesOf;
    WordsBytesOfFour(words[..4]);
    assert words[..7][..6] == words[..6] && words[..6][..5] == words[..5] && words[..5][..4] == words[..4];
    assert WordsBytes(words) == WordsBytes(words[..7]) + BytesOf(words[7]);
    assert WordsBytes(words[..7]) == WordsBytes(words[..6]) + BytesOf(words[6]);
    assert WordsBytes(words[..6]) == WordsBytes(words[..5]) + BytesOf(words[5]);
    assert WordsBytes(words[..5]) == WordsBytes(words[..4]) + BytesOf(words[4]);
  }

  lemma {:induction false} WordsBytesOfFour(words: seq<Word>)
    requires |words| == 4
    ensures WordsBytes(words) == BytesOf(words[0]) + BytesOf(words[1]) + BytesOf(words[2]) + BytesOf(words[3])
  {
    hide BytesOf;
    assert words[..3][..2] == words[..2] && words[..2][..1] == words[..1] && words[..1][..0] == [];
    assert WordsBytes(words) == WordsBytes(words[..3]) + BytesOf(words[3]);
    assert WordsBytes(words[..3]) == WordsBytes(words[..2]) + BytesOf(words[2]);
    assert WordsBytes(words[..2]) == WordsBytes(words[..1]) + BytesOf(words[1]);
  }

  class Hasher {
    var totLen: nat  // bytes already hashed, modulo 2^32
    var len: nat     // bytes waiting in block
    const block: array<Byte>
    const h: array<Word>

    ghost predicate Valid()
      reads this
    {
      block.Length == 128 && h.Length == 8 && len < 64 && totLen < 0x1_0000_0000
    }

    ghost function View(): State
      requires Valid()
      reads this, block, h
    {
      State(HashOf(h[..]), block[..len], totLen)
    }

    constructor ()
      ensures Valid() && View() == Initial()
      ensures fresh(block) && fresh(h)
    {
      block := new Byte[128](_ => 0);
      h := new Word[8](_ => 0);
      new;
      Init();
    }

    method Init()
      requires block.Length == 128 && h.Length == 8
      modifies this, h
      ensures Valid() && View() == Initial()
    {
      h[0] := 0x6a09e667;
      h[1] := 0xbb67ae85;
      h[2] := 0x3c6ef372;
      h[3] := 0xa54ff53a;
      h[4] := 0x510e527f;
      h[5] := 0x9b05688c;
      h[6] := 0x1f83d9ab;
      h[7] := 0x5be0cd19;
      len := 0;
      totLen := 0;
    }

    /** n rounds of block compression, in place on the eight registers. */
    method Transform(message: seq<Byte>, blockNb: nat)
      requires h.Length == 8 && 64 * blockNb <= |message|
      modifies h
      ensures HashOf(h[..]) == HashValue(HashOf(old(h[..])), message, blockNb)
    {
      for i := 0 to blockNb
        invariant HashOf(h[..]) == HashValue(HashOf(old(h[..])), message, i)
      {
        TransformBlock(message[64 * i..64 * (i + 1)]);
      }
    }

    /** The body of the loop over blocks: message schedule, 64 rounds on wv, and the final addition. */
    method TransformBlock(subBlock: seq<Byte>)
      requires h.Length == 8 && |subBlock| == 64
      modifies h
      ensures HashOf(h[..]) == Compress(HashOf(old(h[..])), subBlock)
    {
      hide Rounds, Plus;
      var w := Schedule(subBlock);
      var wv := new Word[8](_ => 0);
      for j := 0 to 8
        invariant h[..] == old(h[..])
        invariant wv[..j] == h[..j]
        invariant forall t :: 0 <= t < 64 ==> w[t] == W(subBlock, t)
      {
        wv[j] := h[j];
      }
      assert wv[..] == h[..];
      RunRounds(wv, w, subBlock);
      AddRegisters(wv);
    }

    static method RunRounds(wv: array<Word>, w: array<Word>, ghost subBlock: seq<Byte>)
      requires wv.Length == 8 && w.Length == 64 && wv != w && |subBlock| == 64
      requires forall t :: 0 <= t < 64 ==> w[t] == W(subBlock, t)
      modifies wv
      ensures HashOf(wv[..]) == Rounds(HashOf(old(wv[..])), subBlock, 64)
    {
      hide Round, W, TableAt, K;
      for j := 0 to 64
        invariant HashOf(wv[..]) == Rounds(HashOf(old(wv[..])), subBlock, j)
      {
        TableIsStandard(j);
        RoundInPlace(wv, TableAt(j), w[j]);
      }
    }

    method AddRegisters(wv: array<Word>)
      requires h.Length == 8 && wv.Length == 8 && wv != h
      modifies h
      ensures forall i :: 0 <= i < 8 ==> h[i] == Plus(old(h[i]), wv[i])
    {
      hide Plus;
      for j := 0 to 8
        invariant forall i :: 0 <= i < j ==> h[i] == Plus(old(h[i]), wv[i])
        invariant forall i :: j <= i < 8 ==> h[i] == old(h[i])
      {
        h[j] := Plus(h[j], wv[j]);
      }
    }

    static method Schedule(subBlock: seq<Byte>) returns (w: array<Word>)
      requires |subBlock| == 64
      ensures fresh(w) && w.Length == 64
      ensures forall t :: 0 <= t < 64 ==> w[t] == W(subBlock, t)
    {
      hide Expand, WordOf, Pack32, F3, F4, Plus;
      w := new Word[64](_ => 0);
      for j := 0 to 16
        invariant forall t :: 0 <= t < j ==> w[t] == W(subBlock, t)
      {
        Pack32IsWordOf(subBlock, 4 * j);
        w[j] := Pack32(subBlock, 4 * j);
      }
      for j := 16 to 64
        invariant forall t :: 0 <= t < j ==> w[t] == W(subBlock, t)
      {
        ScheduleWordIsStandard(w[j - 2], w[j - 7], w[j - 15], w[j - 16]);
        w[j] := Plus(Plus(Plus(F4(w[j - 2]), w[j - 7]), F3(w[j - 15])), w[j - 16]);
      }
    }

    /** One round: the rotation of wv, last register first. */
    static method RoundInPlace(wv: array<Word>, k: Word, wj: Word)
      requires wv.Length == 8
      modifies wv
      ensures HashOf(wv[..]) == Round(HashOf(old(wv[..])), k, wj)
    {
      hide T1, T2, F1, F2, Choose, Majority, Plus;
      var t1 := Plus(Plus(Plus(Plus(wv[7], F2(wv[4])), Choose(wv[4], wv[5], wv[6])), k), wj);
      var t2 := Plus(F1(wv[0]), Majority(wv[0], wv[1], wv[2]));
      Temp1IsStandard(wv[4], wv[5], wv[6], wv[7], k, wj);
      Temp2IsStandard(wv[0], wv[1], wv[2]);
      wv[7] := wv[6];
      wv[6] := wv[5];
      wv[5] := wv[4];
      wv[4] := Plus(wv[3], t1);
      wv[3] := wv[2];
      wv[2] := wv[1];
      wv[1] := wv[0];
      wv[0] := Plus(t1, t2);
    }

    /** Copy n bytes of a message, from position `from` on, into the buffer. */
    method CopyIn(at: nat, message: seq<Byte>, from: nat, n: nat)
      requires at + n <= block.Length && from + n <= |message|
      modifies block
      ensures block[..at + n] == old(block[..at]) + message[from..from + n]
      ensures block[at + n..] == old(block[at + n..])
    {
      forall i | 0 <= i < n { block[at + i] := message[from + i]; }
    }

    /** Top up the buffer; once it is full, hash it and every whole block that follows.  From the
        stated length on, the signed index of the last block, times 64, leaves the range of int. */
    method Update(message: seq<Byte>)
      requires Valid() && |message| < INT_RANGE + 128 - len
      modifies this, block, h
      ensures Valid() && View() == Absorb(old(View()), message)
    {
      hide HashValue, Absorb;
      ghost var s := View();
      var tmpLen := 64 - len;
      var remLen := if |message| < tmpLen then |message| else tmpLen;
      CopyIn(len, message, 0, remLen);
      if len + |message| < 64 {
        len := len + |message|;
        AbsorbWithoutBlock(s, message);
        return;
      }
      HashBlocks(message, remLen, s);
    }

    /** The buffer is full: hash it, the whole blocks behind the first remLen bytes, and keep the rest. */
    method HashBlocks(message: seq<Byte>, remLen: nat, ghost s: State)
      requires Valid() && remLen == 64 - len <= |message|
      requires |message| < INT_RANGE + 128 - len
      requires s.buffered == block[..len] && |s.buffered| == len && s.hash == HashOf(h[..]) && s.total == totLen
      requires block[..64] == s.buffered + message[..remLen]
      modifies this, block, h
      ensures Valid() && View() == Absorb(s, message)
    {
      hide HashValue, Absorb, HashOf;
      var newLen := |message| - remLen;
      var blockNb := newLen / 64;
      var shifted := message[remLen..];
      ghost var first := block[..];
      assert first[..64] == s.buffered + message[..remLen];
      Transform(block[..], 1);
      assert blockNb > 0 ==> (blockNb - 1) * 64 < INT_RANGE;
      Transform(shifted, blockNb);
      ghost var hash := HashOf(h[..]);
      var rest := newLen % 64;
      CopyIn(0, shifted, 64 * blockNb, rest);
      assert block[..rest] == shifted[64 * blockNb..];
      assert HashOf(h[..]) == hash;
      len := rest;
      totLen := (totLen + (blockNb + 1) * 64) % 0x1_0000_0000;
      AbsorbWithBlocks(s, message, first, blockNb);
    }

    /** Pad in place behind the buffered bytes and hash the last one or two blocks. */
    method Final() returns (digest: seq<Byte>)
      requires Valid()
      modifies block, h
      ensures digest == DigestBytes(Finish(old(View())))
      ensures HashOf(h[..]) == Finish(old(View()))
    {
      hide HashValue, FinalBlocks, DigestBytes;
      ghost var s := View();
      var blockNb := PadInPlace();
      ghost var pmLen := 64 * blockNb;
      assert block[..] == FinalBlocks(s) + block[pmLen..];
      HashValuePrefix(s.hash, FinalBlocks(s), block[pmLen..], blockNb);
      Transform(block[..], blockNb);
      digest := WriteDigest();
    }

    /** The registers, byte by byte. */
    method WriteDigest() returns (digest: seq<Byte>)
      requires h.Length == 8
      ensures digest == DigestBytes(HashOf(h[..]))
    {
      hide DigestBytes, BytesOf, HashOf;
      var bytes := new Byte[32](_ => 0);
      for i := 0 to 8
        invariant bytes[..4 * i] == WordsBytes(h[..i])
      {
        ghost var before := bytes[..4 * i];
        Unpack32(h[i], bytes, 4 * i);
        assert h[..i + 1][..i] == h[..i];
        assert bytes[..4 * i + 4] == before + BytesOf(h[i]);
      }
      WordsBytesOfEight(h[..]);
      assert h[..8] == h[..] && bytes[..32] == bytes[..];
      digest := bytes[..];
    }

    method PadInPlace() returns (blockNb: nat)
      requires Valid()
      modifies block
      ensures blockNb == FinalBlockCount(len)
      ensures block[..64 * blockNb] == FinalBlocks(old(View()))
    {
      hide BytesOf, BitLength;
      blockNb := 1 + (if 64 - 9 < len % 64 then 1 else 0);
      var lenB := BitLength(totLen + len);
      var pmLen := 64 * blockNb;
      forall i | len <= i < pmLen { block[i] := 0; }
      block[len] := 0x80;
      assert block[..pmLen - 4] == block[..len] + [0x80] + Zeros(pmLen - len - 5);
      Unpack32(lenB, block, pmLen - 4);
      assert block[..pmLen] == block[..pmLen - 4] + BytesOf(lenB);
    }

    static method Unpack32(x: Word, to: array<Byte>, at: nat)
      requires at + 4 <= to.Length
      modifies to
      ensures to[..at] == old(to[..at])
      ensures to[at..at + 4] == BytesOf(x)
      ensures to[at + 4..] == old(to[at + 4..])
    {
      hide BytesOf, LowByte;
      LowBytesAreBytesOf(x);
      to[at + 3] := LowByte(x);
      to[at + 2] := LowByte(x >> 8);
      to[at + 1] := LowByte(x >> 16);
      to[at] := LowByte(x >> 24);
    }
  }

  // ----- one call of update -----

  lemma AbsorbIs(s: State, message: seq<Byte>)
    ensures var all := s.buffered + message;
            var n := |all| / 64;
            Absorb(s, message) == State(HashValue(s.hash, all, n), all[64 * n..], (s.total + 64 * n) % 0x1_0000_0000)
  {
    hide HashValue;
  }

  lemma AbsorbWithoutBlock(s: State, message: seq<Byte>)
    requires |s.buffered| + |message| < 64 && s.total < 0x1_0000_0000
    ensures Absorb(s, message) == State(s.hash, s.buffered + message, s.total)
  {
  }

  /** The buffer completed to one block, then the whole blocks of the rest of the message. */
  lemma AbsorbWithBlocks(s: State, message: seq<Byte>, first: seq<Byte>, n: nat)
    requires |s.buffered| < 64 <= |first| && 64 <= |s.buffered| + |message|
    requires first[..64] == s.buffered + message[..64 - |s.buffered|]
    requires n == (|message| - (64 - |s.buffered|)) / 64
    ensures var rest := message[64 - |s.buffered|..];
            Absorb(s, message) == State(HashValue(HashValue(s.hash, first, 1), rest, n), rest[64 * n..],
                                        (s.total + (n + 1) * 64) % 0x1_0000_0000)
  {
    hide Compress;
    var rest := message[64 - |s.buffered|..];
    var head := first[..64];
    assert s.buffered + message == head + rest;
    assert |head + rest| / 64 == 1 + n;
    HashValueAppend(s.hash, head, 1, rest, n);
    HashValuePrefix(s.hash, head, first[64..], 1);
    assert first == head + first[64..];
    assert (head + rest)[64 * (1 + n)..] == rest[64 * n..];
  }

  // ----- chunking does not matter -----

  /** Feeding a and then b is feeding a + b. */
  lemma AbsorbAppend(s: State, a: seq<Byte>, b: seq<Byte>)
    ensures Absorb(Absorb(s, a), b) == Absorb(s, a + b)
  {
    hide HashValue, DigestBytes;
    var all := s.buffered + a;
    var n := |all| / 64;
    var done, left := all[..64 * n], all[64 * n..];
    var i := |left + b| / 64;
    assert s.buffered + (a + b) == done + (left + b);
    assert |done + (left + b)| / 64 == n + i;
    HashValueAppend(s.hash, done, n, left + b, i);
    HashValuePrefix(s.hash, done, left, n);
    assert all == done + left;
    assert (done + (left + b))[64 * (n + i)..] == (left + b)[64 * i..];
    CountsAdd(s.total, n, i);
  }

  lemma CountsAdd(total: nat, n: nat, i: nat)
    ensures ((total + 64 * n) % 0x1_0000_0000 + 64 * i) % 0x1_0000_0000 == (total + 64 * (n + i)) % 0x1_0000_0000
  {
  }

  function Flatten(chunks: seq<seq<Byte>>): seq<Byte> {
    if chunks == [] then [] else chunks[0] + Flatten(chunks[1..])
  }

  /** Any list of chunks leaves the state that one update with their concatenation leaves. */
  lemma {:induction false} ChunkingIrrelevant(s: State, chunks: seq<seq<Byte>>)
    requires |s.buffered| < 64 && s.total < 0x1_0000_0000
    ensures AbsorbAll(s, chunks) == Absorb(s, Flatten(chunks))
    decreases |chunks|
  {
    hide Absorb;
    if chunks == [] {
      AbsorbWithoutBlock(s, []);
      assert s.buffered + [] == s.buffered;
    } else {
      AbsorbInRange(s, chunks[0]);
      ChunkingIrrelevant(Absorb(s, chunks[0]), chunks[1..]);
      AbsorbAppend(s, chunks[0], Flatten(chunks[1..]));
    }
  }

  lemma AbsorbInRange(s: State, message: seq<Byte>)
    ensures |Absorb(s, message).buffered| < 64 && Absorb(s, message).total < 0x1_0000_0000
  {
  }
}
