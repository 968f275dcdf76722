/** The secure hash algorithm SHA-256 of FIPS 180-4, over octets. */
module Sha256Spec {
  import opened Bytes

  type octet = bv8

  /** A machine word; kept apart from its bits so that proofs need not look into it. */
  datatype Word = Word(bits: bv32)

  const ZERO := Word(0)

  /** Section 4.2.2. */
  function K(t: nat): Word
    requires t < 64
  {
    Word(if t < 8 then
           [0x428a2f98, 0x71374491, 0xb5c0fbcf, 0xe9b5dba5,
            0x3956c25b, 0x59f111f1, 0x923f82a4, 0xab1c5ed5][t]
         else if t < 16 then
           [0xd807aa98, 0x12835b01, 0x243185be, 0x550c7dc3,
            0x72be5d74, 0x80deb1fe, 0x9bdc06a7, 0xc19bf174][t - 8]
         else if t < 24 then
           [0xe49b69c1, 0xefbe4786, 0x0fc19dc6, 0x240ca1cc,
            0x2de92c6f, 0x4a7484aa, 0x5cb0a9dc, 0x76f988da][t - 16]
         else if t < 32 then
           [0x983e5152, 0xa831c66d, 0xb00327c8, 0xbf597fc7,
            0xc6e00bf3, 0xd5a79147, 0x06ca6351, 0x14292967][t - 24]
         else if t < 40 then
           [0x27b70a85, 0x2e1b2138, 0x4d2c6dfc, 0x53380d13,
            0x650a7354, 0x766a0abb, 0x81c2c92e, 0x92722c85][t - 32]
         else if t < 48 then
           [0xa2bfe8a1, 0xa81a664b, 0xc24b8b70, 0xc76c51a3,
            0xd192e819, 0xd6990624, 0xf40e3585, 0x106aa070][t - 40]
         else if t < 56 then
           [0x19a4c116, 0x1e376c08, 0x2748774c, 0x34b0bcb5,
            0x391c0cb3, 0x4ed8aa4a, 0x5b9cca4f, 0x682e6ff3][t - 48]
         else
           [0x748f82ee, 0x78a5636f, 0x84c87814, 0x8cc70208,
            0x90befffa, 0xa4506ceb, 0xbef9a3f7, 0xc67178f2][t - 56])
  }

  datatype State = State(a: Word, b: Word, c: Word, d: Word, e: Word, f: Word, g: Word, h: Word)

  /** Section 5.3.3. */
  function IV(): State {
    State(Word(0x6a09e667), Word(0xbb67ae85), Word(0x3c6ef372), Word(0xa54ff53a),
          Word(0x510e527f), Word(0x9b05688c), Word(0x1f83d9ab), Word(0x5be0cd19))
  }

  // Section 4.1.2.

  function Ch(x: Word, y: Word, z: Word): Word { Word((x.bits & y.bits) ^ (!x.bits & z.bits)) }

  function Maj(x: Word, y: Word, z: Word): Word {
    Word((x.bits & y.bits) ^ (x.bits & z.bits) ^ (y.bits & z.bits))
  }

  function BigSigma0(x: Word): Word { Word(BigSigma0Bits(x.bits)) }

  function BigSigma0Bits(x: bv32): bv32 { x.RotateRight(2) ^ x.RotateRight(13) ^ x.RotateRight(22) }

  function BigSigma1(x: Word): Word { Word(BigSigma1Bits(x.bits)) }

  function BigSigma1Bits(x: bv32): bv32 { x.RotateRight(6) ^ x.RotateRight(11) ^ x.RotateRight(25) }

  function SmallSigma0(x: Word): Word { Word(SmallSigma0Bits(x.bits)) }

  function SmallSigma0Bits(x: bv32): bv32 { x.RotateRight(7) ^ x.RotateRight(18) ^ (x >> 3) }

  function SmallSigma1(x: Word): Word { Word(SmallSigma1Bits(x.bits)) }

  function SmallSigma1Bits(x: bv32): bv32 { x.RotateRight(17) ^ x.RotateRight(19) ^ (x >> 10) }

  /** Addition modulo 2^32. */
  function Plus(x: Word, y: Word): Word { Word(x.bits + y.bits) }

  // Section 6.2.2.

  function NextWord(w2: Word, w7: Word, w15: Word, w16: Word): Word {
    Plus(Plus(Plus(w16, SmallSigma0(w15)), w7), SmallSigma1(w2))
  }

  function Schedule(m: seq<Word>, t: nat): Word
    requires |m| == 16
  {
    if t < 16 then m[t]
    else NextWord(Schedule(m, t - 2), Schedule(m, t - 7), Schedule(m, t - 15), Schedule(m, t - 16))
  }

  function Round(s: State, k: Word, w: Word): State {
    var t1 := Plus(Plus(Plus(Plus(s.h, BigSigma1(s.e)), Ch(s.e, s.f, s.g)), k), w);
    var t2 := Plus(BigSigma0(s.a), Maj(s.a, s.b, s.c));
    State(Plus(t1, t2), s.a, s.b, s.c, Plus(s.d, t1), s.e, s.f, s.g)
  }

  function Rounds(s: State, m: seq<Word>, t: nat): State
    requires |m| == 16 && t <= 64
  {
    if t == 0 then s else Round(Rounds(s, m, t - 1), K(t - 1), Schedule(m, t - 1))
  }

  function Add(x: State, y: State): State {
    State(Plus(x.a, y.a), Plus(x.b, y.b), Plus(x.c, y.c), Plus(x.d, y.d),
          Plus(x.e, y.e), Plus(x.f, y.f), Plus(x.g, y.g), Plus(x.h, y.h))
  }

  function Compress(s: State, m: seq<Word>): State
    requires |m| == 16
  {
    Add(s, Rounds(s, m, 64))
  }

  // Section 5: padding and parsing.

  function Or(x: Word, y: Word): Word { Word(x.bits | y.bits) }

  function Or4(x: Word, y: Word, z: Word, w: Word): Word {
    Or(Or(Or(x, y), z), w)
  }

  function Put(b: octet, shift: nat): Word
    requires shift <= 24
  {
    Word((b as bv32) << shift)
  }

  /** The octet at `i`, in its place in a big-endian word; nothing beyond the end. */
  function Lane(s: seq<octet>, i: nat, shift: nat): Word
    requires shift <= 24
  {
    if i < |s| then Put(s[i], shift) else ZERO
  }

  /** The j-th big-endian word of a sequence of octets. */
  function WordAt(s: seq<octet>, j: nat): Word {
    Or4(Lane(s, 4 * j, 24), Lane(s, 4 * j + 1, 16), Lane(s, 4 * j + 2, 8), Lane(s, 4 * j + 3, 0))
  }

  /** The whole words of a sequence of octets. */
  function Words(s: seq<octet>): (w: seq<Word>)
    ensures |w| == |s| / 4
  {
    seq(|s| / 4, j requires 0 <= j < |s| / 4 => WordAt(s, j))
  }

  function Bit(one: bool): Word { Word(if one then 1 else 0) }

  /** One more binary digit. */
  function Shifted(x: Word, digit: Word): Word { Or(Twice(x), digit) }

  function Twice(x: Word): Word { Word(x.bits << 1) }

  /** The last 32 binary digits of `n`. */
  function Binary(n: nat): Word {
    if n == 0 then ZERO else Shifted(Binary(n / 2), Bit(n % 2 == 1))
  }

  /** The message, a one bit, and zeros up to eight octets short of a whole block. */
  function Filled(msg: seq<octet>): seq<octet> {
    msg + [0x80] + Repeat<octet>(0, (119 - |msg| % 64) % 64)
  }

  /** The length in bits of `n` octets, as a 64-bit number in two words. */
  function LengthWords(n: nat): seq<Word> {
    [Binary(8 * n / 0x1_0000_0000), Binary(8 * n % 0x1_0000_0000)]
  }

  /** The padded message in words; the last two are the length in bits. */
  function Padded(msg: seq<octet>): seq<Word> {
    Words(Filled(msg)) + LengthWords(|msg|)
  }

  /** The first `k` blocks of sixteen words, compressed one after the other. */
  function HashBlocks(m: seq<Word>, k: nat): State
    requires 16 * k <= |m|
  {
    if k == 0 then IV() else Compress(HashBlocks(m, k - 1), m[16 * (k - 1)..16 * k])
  }

  function Hash(msg: seq<octet>): State {
    var m := Padded(msg);
    HashBlocks(m, |m| / 16)
  }

  function WordOctets(w: Word): (o: seq<octet>)
    ensures |o| == 4
  {
    [((w.bits >> 24) & 0xff) as octet, ((w.bits >> 16) & 0xff) as octet,
     ((w.bits >> 8) & 0xff) as octet, (w.bits & 0xff) as octet]
  }

  /** The octets of a word are those that make it up. */
  lemma OctetsOfWord(w: Word)
    ensures WordAt(WordOctets(w), 0) == w
  {
  }

  /** The message digest, for messages below 2^64 bits. */
  function Digest(msg: seq<octet>): (d: seq<octet>)
    ensures |d| == 32
  {
    var s := Hash(msg);
    WordOctets(s.a) + WordOctets(s.b) + WordOctets(s.c) + WordOctets(s.d)
    + WordOctets(s.e) + WordOctets(s.f) + WordOctets(s.g) + WordOctets(s.h)
  }

  // ------------------------------------------------------------------- words

  /** Words that lie within a prefix are the words of the prefix. */
  lemma WordsPrefix(s: seq<octet>, more: seq<octet>)
    ensures Words(s) <= Words(s + more)
  {
    hide Or4, Put;
    forall j | 0 <= j < |s| / 4
      ensures WordAt(s, j) == WordAt(s + more, j)
    {
    }
  }

  lemma WordsSlice(s: seq<octet>, from: nat)
    requires 4 * from <= |s|
    ensures Words(s[4 * from..]) == Words(s)[from..]
  {
    hide Or4, Put;
    forall j | 0 <= j < |s| / 4 - from
      ensures WordAt(s[4 * from..], j) == WordAt(s, from + j)
    {
    }
  }

  lemma {:induction false} HashBlocksPrefix(m: seq<Word>, more: seq<Word>, k: nat)
    requires 16 * k <= |m|
    ensures HashBlocks(m + more, k) == HashBlocks(m, k)
  {
    hide Compress;
    if k > 0 {
      HashBlocksPrefix(m, more, k - 1);
      assert (m + more)[16 * (k - 1)..16 * k] == m[16 * (k - 1)..16 * k];
    }
  }

  /** A whole block more. */
  lemma FullBlock(s: seq<octet>, all: seq<octet>, k: nat)
    requires s <= all && 64 * k <= |s| && |all| == 64 * (k + 1)
    ensures |Words(all[64 * k..])| == 16
    ensures HashBlocks(Words(all), k + 1) == Compress(HashBlocks(Words(s), k), Words(all[64 * k..]))
  {
    hide Compress;
    SameBlocks(s, all, k);
    WordsSlice(all, 16 * k);
    assert 4 * (16 * k) == 64 * k;
    assert Words(all)[16 * k..16 * (k + 1)] == Words(all[64 * k..]);
  }

  /** The blocks that were whole before stay what they were. */
  lemma SameBlocks(s: seq<octet>, all: seq<octet>, k: nat)
    requires s <= all && 64 * k <= |s|
    ensures HashBlocks(Words(all), k) == HashBlocks(Words(s), k)
  {
    hide Compress, HashBlocks;
    assert all == s + all[|s|..];
    WordsPrefix(s, all[|s|..]);
    var w, more := Words(s), Words(all)[|Words(s)|..];
    assert Words(all) == w + more;
    HashBlocksPrefix(w, more, k);
  }

  /** The last block of the padding: what is left of it holds the length. */
  lemma LengthEnds(msg: seq<octet>, k: nat, last: seq<octet>)
    requires |Filled(msg)| == 64 * k + 56 && last == Filled(msg)[64 * k..]
    ensures |Words(last)| == 14
    ensures Hash(msg) == Compress(HashBlocks(Words(Filled(msg)), k), Words(last) + LengthWords(|msg|))
  {
    hide Compress, Words, Filled, Binary;
    var w, m := Words(Filled(msg)), Padded(msg);
    assert |w| == 16 * k + 14;
    assert 4 * (16 * k) == 64 * k;
    WordsSlice(Filled(msg), 16 * k);
    assert m[16 * k..16 * (k + 1)] == w[16 * k..] + LengthWords(|msg|);
    HashBlocksPrefix(w, LengthWords(|msg|), k);
  }

  lemma FilledInOneBlock(msg: seq<octet>, tail: seq<octet>, k: nat)
    requires |msg| == 64 * k + |tail| && |tail| < 56 && tail == msg[64 * k..]
    ensures msg <= Filled(msg)
    ensures Filled(msg)[64 * k..] == tail + [0x80] + Repeat<octet>(0, 55 - |tail|)
  {
    hide Repeat;
    assert (119 - |msg| % 64) % 64 == 55 - |tail|;
    assert Filled(msg) == msg + [0x80] + Repeat<octet>(0, 55 - |tail|);
    hide Filled;
  }

  lemma FilledInTwoBlocks(msg: seq<octet>, tail: seq<octet>, k: nat)
    requires |msg| == 64 * k + |tail| && 56 <= |tail| < 64 && tail == msg[64 * k..]
    ensures var more := msg + [0x80] + Repeat<octet>(0, 63 - |tail|);
            && more[64 * k..] == tail + [0x80] + Repeat<octet>(0, 63 - |tail|)
            && Filled(msg) == more + Repeat<octet>(0, 56)
  {
    hide Repeat;
    assert (119 - |msg| % 64) % 64 == 119 - |tail|;
    ZerosSplit(63 - |tail|, 56);
  }

  /** The padding when the last block has room for the length. */
  lemma PadInOneBlock(msg: seq<octet>, tail: seq<octet>, k: nat)
    requires |msg| == 64 * k + |tail| && |tail| < 56 && tail == msg[64 * k..]
    ensures var last := tail + [0x80] + Repeat<octet>(0, 55 - |tail|);
            |Words(last)| == 14
            && Hash(msg) == Compress(HashBlocks(Words(msg), k), Words(last) + LengthWords(|msg|))
  {
    hide Compress, HashBlocks, Words, Hash, LengthWords, Filled, Repeat;
    FilledInOneBlock(msg, tail, k);
    SameBlocks(msg, Filled(msg), k);
    LengthEnds(msg, k, tail + [0x80] + Repeat<octet>(0, 55 - |tail|));
  }

  lemma BlockBeforeLength(msg: seq<octet>, more: seq<octet>, k: nat)
    requires msg <= more && 64 * k <= |msg| && |more| == 64 * (k + 1) && more + Repeat<octet>(0, 56) == Filled(msg)
    ensures |Words(more[64 * k..])| == 16
    ensures HashBlocks(Words(Filled(msg)), k + 1) == Compress(HashBlocks(Words(msg), k), Words(more[64 * k..]))
  {
    hide Compress, HashBlocks, Words, Filled, Repeat;
    FullBlock(msg, more, k);
    SameBlocks(more, Filled(msg), k + 1);
  }

  /** The padding when the length needs a block of its own. */
  lemma PadInTwoBlocks(msg: seq<octet>, tail: seq<octet>, k: nat)
    requires |msg| == 64 * k + |tail| && 56 <= |tail| < 64 && tail == msg[64 * k..]
    ensures var last := tail + [0x80] + Repeat<octet>(0, 63 - |tail|);
            |Words(last)| == 16 && |Words(Repeat<octet>(0, 56))| == 14
            && Hash(msg) == Compress(Compress(HashBlocks(Words(msg), k), Words(last)),
                                     Words(Repeat<octet>(0, 56)) + LengthWords(|msg|))
  {
    hide Compress, HashBlocks, Words, Hash, LengthWords, Filled, Repeat;
    FilledInTwoBlocks(msg, tail, k);
    var more := msg + [0x80] + Repeat<octet>(0, 63 - |tail|);
    BlockBeforeLength(msg, more, k);
    LengthEnds(msg, k + 1, Repeat<octet>(0, 56));
  }

  lemma ZerosSplit(m: nat, n: nat)
    ensures Repeat<octet>(0, m + n) == Repeat<octet>(0, m) + Repeat<octet>(0, n)
  {
  }

  lemma PutZero(shift: nat)
    requires shift in {0, 8, 16, 24}
    ensures Put(0, shift) == ZERO
  {
  }

  lemma ZeroLane(s: seq<octet>, n: nat, i: nat, shift: nat)
    requires shift in {0, 8, 16, 24}
    ensures Lane(s + Repeat<octet>(0, n), i, shift) == Lane(s, i, shift)
  {
    PutZero(shift);
    hide Put;
  }

  /** Zeros leave the words before them as they are. */
  lemma ZerosChangeNothing(s: seq<octet>, n: nat, j: nat)
    ensures WordAt(s + Repeat<octet>(0, n), j) == WordAt(s, j)
  {
    hide Lane, Repeat, Or4;
    ZeroLane(s, n, 4 * j, 24);
    ZeroLane(s, n, 4 * j + 1, 16);
    ZeroLane(s, n, 4 * j + 2, 8);
    ZeroLane(s, n, 4 * j + 3, 0);
  }

  // ----------------------------------------------------------- binary numbers

  lemma BinaryStep(n: nat)
    ensures Binary(n) == Shifted(Binary(n / 2), Bit(n % 2 == 1))
  {
    if n == 0 {
      assert Binary(0) == ZERO;
    }
  }

  lemma OrAssociates(x: Word, y: Word, z: Word)
    ensures Or(Or(x, y), z) == Or(x, Or(y, z))
  {
  }

  lemma OrZero(x: Word)
    ensures Or(x, ZERO) == x == Or(ZERO, x)
  {
  }

  lemma TwiceOr(x: Word, y: Word)
    ensures Twice(Or(x, y)) == Or(Twice(x), Twice(y))
  {
  }

  lemma OrShifted(x: Word, y: Word, p: Word)
    ensures Or(Shifted(x, ZERO), Shifted(y, p)) == Shifted(Or(x, y), p)
  {
    hide Or, Twice;
    TwiceOr(x, y);
    OrZero(Twice(x));
    OrAssociates(Twice(x), Twice(y), p);
  }

  lemma ThreeDigits(x: Word, p: Word, q: Word, r: Word)
    ensures Or(Shifted(Shifted(Shifted(x, ZERO), ZERO), ZERO), Shifted(Shifted(Shifted(ZERO, p), q), r))
         == Shifted(Shifted(Shifted(x, p), q), r)
  {
    hide Or, Shifted;
    OrZero(x);
    OrShifted(x, ZERO, p);
    OrShifted(Shifted(x, ZERO), Shifted(ZERO, p), q);
    OrShifted(Shifted(Shifted(x, ZERO), ZERO), Shifted(Shifted(ZERO, p), q), r);
  }

  lemma Octal(h: nat, q: nat)
    requires q < 8
    ensures Binary(8 * h + q)
         == Shifted(Shifted(Shifted(Binary(h), Bit(q / 4 % 2 == 1)), Bit(q / 2 % 2 == 1)), Bit(q % 2 == 1))
  {
    hide Shifted, Binary, Bit;
    BinaryStep(8 * h + q);
    BinaryStep(4 * h + q / 2);
    BinaryStep(2 * h + q / 4);
    assert (8 * h + q) / 2 == 4 * h + q / 2 && (4 * h + q / 2) / 2 == 2 * h + q / 4 && (2 * h + q / 4) / 2 == h;
    assert (8 * h + q) % 2 == q % 2 && (4 * h + q / 2) % 2 == q / 2 % 2 && (2 * h + q / 4) % 2 == q / 4 % 2;
  }

  /** Three more binary digits. */
  lemma BinaryOfOctal(h: nat, q: nat)
    requires q < 8
    ensures Or(Binary(8 * h), Binary(q)) == Binary(8 * h + q)
  {
    hide Shifted, Binary, Or;
    Octal(h, q);
    Octal(h, 0);
    Octal(0, q);
    BinaryZero();
    ThreeDigits(Binary(h), Bit(q / 4 % 2 == 1), Bit(q / 2 % 2 == 1), Bit(q % 2 == 1));
  }

  lemma BinaryZero()
    ensures Binary(0) == ZERO
  {
  }
}
